/** The database's own checks on the rows generation inserts: a third account of which items are
    due, which the generated rows meet except in two cases. */
module CompensationGuards {
  import opened Collections
  import opened Ordering
  import opened Compensation
  import opened CompensationRecheck

  /** The sessions and fixed-class agreements that other periods' rows already claim. */
  datatype Claims = Claims(sessions: set<Id>, fixed: set<Id>)

  // ---------- the triggers ----------

  /** The agreement an item names is its teacher's, for its class, at its rate, in force on its day. */
  predicate Backs(a: Agreement, x: Item) {
    && a.id == x.agreement && a.teacher == x.teacher && (a.class_.Some? ==> a.class_ == Some(x.class_))
    && a.rate == x.rate && a.from <= x.date && (a.until.Some? ==> x.date <= a.until.value)
    && a.basis == (if x.SessionItem? then x.basis else FixedClass)
  }

  predicate Records(w: Session, x: Item)
    requires x.SessionItem?
  {
    && w.id == x.session && w.class_ == x.class_ && w.teacher == Some(x.teacher) && w.completed
    && w.date == x.date && w.start == x.start && w.end == x.end
  }

  /** validate_compensation_item_source and the checks on an item's own columns. */
  predicate ItemAccepted(src: Sources, x: Item) {
    && x.rate > 0 && x.amount > 0
    && (exists a | a in src.agreements :: Backs(a, x) && (x.FixedItem? ==> a.class_ == Some(x.class_)))
    && match x
       case SessionItem(_, _, _, _, basis, _, minutes, _, _, _, _) =>
         minutes > 0 && basis != FixedClass && exists w | w in src.sessions :: Records(w, x)
       case FixedItem(_, _, class_, _, _, date) => class_ in src.completedOn && src.completedOn[class_] == date
  }

  /** validate_unresolved_compensation_source */
  predicate UnpaidAccepted(src: Sources, p: Dates, u: Unresolved) {
    && p.start <= u.date <= p.end
    && exists w | w in src.sessions ::
         w.id == u.session && w.class_ == u.class_ && w.completed && w.date == u.date
           && (u.teacher.Some? ==> w.teacher == u.teacher)
  }

  predicate ItemRefused(src: Sources, claims: Claims, x: Item) {
    !ItemAccepted(src, x) || (if x.SessionItem? then x.session in claims.sessions else x.agreement in claims.fixed)
  }

  predicate UnpaidRefused(src: Sources, p: Dates, claims: Claims, u: Unresolved) {
    !UnpaidAccepted(src, p, u) || u.session in claims.sessions
  }

  // ---------- what they accept ----------

  lemma AgreementApplies(src: Sources, p: Dates, w: Session)
    requires Tables(src) && Payable(p, w) && AgreementFor(src, p, w).Some?
    ensures AgreementFor(src, p, w).value in src.agreements && Applies(AgreementFor(src, p, w).value, w)
  {
    SameAgreement(src, p, w);
    var applicable := Filter(src.agreements, Applicable(w));
    FilterMembers(src.agreements, Applicable(w));
    SortMembers(applicable, LateralOrder);
    assert LateralAgreement(src, w).value in Sort(applicable, LateralOrder);
  }

  /** The triggers accept the item of any paid session, if its minutes and amount are positive. */
  lemma SessionItemAccepted(src: Sources, p: Dates, w: Session)
    requires Tables(src) && w in src.sessions && Payable(p, w) && Paid(src, p, w)
    ensures ItemAccepted(src, PaidItem(src, p)(w).value)
            <==> CutMinutes(w) > 0 && PaidItem(src, p)(w).value.amount > 0
  {
    var x, a := PaidItem(src, p)(w).value, AgreementFor(src, p, w).value;
    AgreementApplies(src, p, w);
    assert Backs(a, x) && Records(w, x);
  }

  /** An amount rounds to nothing only for an hourly rate that earns less than half a dong. */
  lemma AmountPositive(rate: Rate, basis: Basis, minutes: int)
    requires minutes > 0
    ensures Amount(rate, basis, minutes) > 0 <==> basis != PerHour || rate * minutes >= 30
  {
    assert rate * minutes > 0;
  }

  lemma OneAgreement(src: Sources, a: Agreement, b: Agreement)
    requires Tables(src) && a in src.agreements && b in src.agreements && a.id == b.id
    ensures a == b
  {
    var i :| 0 <= i < |src.agreements| && src.agreements[i] == a;
    var j :| 0 <= j < |src.agreements| && src.agreements[j] == b;
  }

  /** The triggers accept a fixed-class item if and only if its agreement is in force on the day its
      class completed: generation looks at the period instead. */
  lemma FixedItemAccepted(src: Sources, p: Dates, a: Agreement)
    requires Tables(src) && a in src.agreements && FixedDue(src, p, a)
    ensures ItemAccepted(src, FixedFor(src, a)) <==> Covers(src, a)
  {
    var x := FixedFor(src, a);
    if Covers(src, a) { assert Backs(a, x); }
    forall b | b in src.agreements && Backs(b, x) ensures b == a { OneAgreement(src, a, b); }
  }

  lemma UnpaidRowAccepted(src: Sources, p: Dates, w: Session)
    requires w in src.sessions && Payable(p, w) && UnpaidRow(src, p)(w).Some?
    ensures UnpaidAccepted(src, p, UnpaidRow(src, p)(w).value)
  {
  }

  // ---------- where the rows come from ----------

  lemma SessionItemsFrom(src: Sources, p: Dates)
    ensures forall x ::
      x in SessionItems(src, p) <==> exists w | w in src.sessions && Payable(p, w) :: PaidItem(src, p)(w) == Some(x)
    ensures forall u ::
      u in UnresolvedRows(src, p) <==> exists w | w in src.sessions && Payable(p, w) :: UnpaidRow(src, p)(w) == Some(u)
  {
    InPeriodRows(src, p);
    SortMembers(Filter(src.sessions, InPeriod(p)), ByDate);
    CollectMember(Worked(src, p), PaidItem(src, p));
    CollectMember(Worked(src, p), UnpaidRow(src, p));
  }

  lemma {:induction false} FixedItemsFrom(src: Sources, p: Dates, agreements: seq<Agreement>)
    ensures forall x ::
      x in FixedItems(src, p, agreements)
      <==> exists a | a in agreements && FixedDue(src, p, a) :: FixedFor(src, a) == x
  {
    if |agreements| != 0 {
      var front, last := agreements[..|agreements| - 1], agreements[|agreements| - 1];
      FixedItemsFrom(src, p, front);
      assert agreements == front + [last];
    }
  }

  // ---------- one generation's rows never clash with each other ----------

  predicate SameSource(x: Item, y: Item) {
    if x.SessionItem? then y.SessionItem? && x.session == y.session else y.FixedItem? && x.agreement == y.agreement
  }

  ghost predicate Unclashing(items: seq<Item>) {
    forall i, j | 0 <= i < j < |items| :: !SameSource(items[i], items[j])
  }

  lemma {:induction false} SessionItemsApart(src: Sources, p: Dates, s: seq<Session>)
    requires forall i, j | 0 <= i < j < |s| :: s[i].id != s[j].id
    ensures Unclashing(Collect(s, PaidItem(src, p)))
  {
    if |s| != 0 {
      var front := s[..|s| - 1];
      SessionItemsApart(src, p, front);
      CollectMember(front, PaidItem(src, p));
      var items := Collect(front, PaidItem(src, p));
      forall i | 0 <= i < |items| ensures items[i].SessionItem? && items[i].session != s[|s| - 1].id {
        assert items[i] in items;
      }
    }
  }

  lemma {:induction false} FixedItemsApart(src: Sources, p: Dates, agreements: seq<Agreement>)
    requires forall i, j | 0 <= i < j < |agreements| :: agreements[i].id != agreements[j].id
    ensures Unclashing(FixedItems(src, p, agreements))
  {
    if |agreements| != 0 {
      var front := agreements[..|agreements| - 1];
      FixedItemsApart(src, p, front);
      FixedItemsFrom(src, p, front);
      var items := FixedItems(src, p, front);
      forall i | 0 <= i < |items| ensures items[i].FixedItem? && items[i].agreement != agreements[|agreements| - 1].id {
        assert items[i] in items;
      }
    }
  }

  lemma WorkedApart(src: Sources, p: Dates)
    requires Tables(src)
    ensures forall i, j | 0 <= i < j < |Worked(src, p)| :: Worked(src, p)[i].id != Worked(src, p)[j].id
  {
    var s, worked := Filter(src.sessions, InPeriod(p)), Worked(src, p);
    SessionsDecided(src, p);
    SortIncreasing(s, ByDate);
    SortMembers(s, ByDate);
    forall i, j | 0 <= i < j < |worked| ensures worked[i].id != worked[j].id {
      assert worked[i] in worked && worked[j] in worked && ByDate(worked[i], worked[j]);
      if worked[i].id == worked[j].id { OneSession(src, worked[i], worked[j]); }
    }
  }

  lemma SessionsDecided(src: Sources, p: Dates)
    requires Tables(src)
    ensures var s := Filter(src.sessions, InPeriod(p));
            Distinct(s) && Decides(s, ByDate) && forall w | w in s :: w in src.sessions
  {
    var s := Filter(src.sessions, InPeriod(p));
    assert Distinct(src.sessions);
    FilterKeepsDistinct(src.sessions, InPeriod(p));
    InPeriodRows(src, p);
    forall x, y | x in s && y in s && x != y ensures ByDate(x, y) || ByDate(y, x) {
      if x.id == y.id { OneSession(src, x, y); }
    }
  }

  /** No session is claimed twice by one generation, nor any fixed-class agreement, and none both
      by an item and as unresolved: the unique indexes never refuse the period's own rows. */
  lemma OwnRowsNeverClash(src: Sources, p: Dates)
    requires Tables(src)
    ensures Unclashing(Generated(src, p))
    ensures forall x, u | x in SessionItems(src, p) && u in UnresolvedRows(src, p) ::
            x.SessionItem? && x.session != u.session
  {
    WorkedApart(src, p);
    SessionItemsApart(src, p, Worked(src, p));
    FixedItemsApart(src, p, src.agreements);
    SessionItemsFrom(src, p);
    FixedItemsFrom(src, p, src.agreements);
    var sessions, fixed := SessionItems(src, p), FixedItems(src, p, src.agreements);
    forall i, j | 0 <= i < |sessions| && 0 <= j < |fixed| ensures !SameSource(sessions[i], fixed[j]) {
      assert sessions[i] in sessions && fixed[j] in fixed;
    }
    forall x, u | x in sessions && u in UnresolvedRows(src, p) ensures x.SessionItem? && x.session != u.session {
      var v :| v in src.sessions && Payable(p, v) && PaidItem(src, p)(v) == Some(x);
      var w :| w in src.sessions && Payable(p, w) && UnpaidRow(src, p)(w) == Some(u);
      if v.id == w.id { OneSession(src, v, w); }
    }
  }
}
