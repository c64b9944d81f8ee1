/** Which rows generation writes and the recheck expects, in terms of sessions, agreements and dates. */
module CompensationRows {
  import opened Collections
  import opened Ordering
  import opened Compensation
  import opened CompensationRecheck

  // ---------- the agreement of a session ----------

  /** The agreement is with the session's teacher, for its class or for any, and in force on its day. */
  ghost predicate Fits(a: Agreement, w: Session) {
    && w.teacher.Some? && w.teacher.value == a.teacher && (a.class_.None? || a.class_.value == w.class_)
    && a.from <= w.date && (a.until.None? || w.date <= a.until.value)
  }

  /** One for a class goes before one for any; then the one in force since later, then the greater id. */
  ghost predicate Better(a: Agreement, b: Agreement) {
    || (a.class_.Some? && b.class_.None?)
    || ((a.class_.Some? <==> b.class_.Some?) && (a.from > b.from || (a.from == b.from && a.id > b.id)))
  }

  ghost predicate Best(src: Sources, w: Session, a: Agreement) {
    && a in src.agreements && Fits(a, w)
    && forall b | b in src.agreements && Fits(b, w) && b != a :: Better(a, b)
  }

  /** Both ways of choosing give the best fitting agreement, and none exactly where none fits. */
  lemma AgreementIsBest(src: Sources, p: Dates, w: Session)
    requires Tables(src) && p.start <= w.date <= p.end
    ensures forall a :: AgreementFor(src, p, w) == Some(a) <==> Best(src, w, a)
    ensures AgreementFor(src, p, w).None? <==> forall a | a in src.agreements :: !Fits(a, w)
    ensures LateralAgreement(src, w) == AgreementFor(src, p, w)
  {
    SameAgreement(src, p, w);
    var fitting := Filter(src.agreements, Applicable(w));
    var sorted := Sort(fitting, LateralOrder);
    FilterMembers(src.agreements, Applicable(w));
    ListDecides(src.agreements);
    FilterKeepsDistinct(src.agreements, Applicable(w));
    DecidesSome(src.agreements, fitting, ListOrder);
    LateralDecides(fitting, w);
    SortIncreasing(fitting, LateralOrder);
    SortMembers(fitting, LateralOrder);
    forall a | a in src.agreements ensures a in sorted <==> Fits(a, w) {}
    if |sorted| != 0 {
      assert sorted[0] in sorted;
      forall b | b in sorted && b != sorted[0] ensures Better(sorted[0], b) {
        var i :| 0 <= i < |sorted| && sorted[i] == b;
        assert LateralOrder(sorted[0], sorted[i]);
      }
      assert Best(src, w, sorted[0]);
    }
    forall a ensures LateralAgreement(src, w) == Some(a) <==> Best(src, w, a) {
      if Best(src, w, a) { assert a in sorted; }
    }
  }

  // ---------- sessions ----------

  /** A completed session of the period, both days included, with its best agreement, which is not a
      fixed-class one. */
  ghost predicate PaidFor(src: Sources, p: Dates, w: Session, a: Agreement) {
    && w in src.sessions && w.completed && p.start <= w.date <= p.end
    && Best(src, w, a) && a.basis != FixedClass
  }

  ghost predicate Unpaid(src: Sources, p: Dates, w: Session) {
    && w in src.sessions && w.completed && p.start <= w.date <= p.end
    && forall a | a in src.agreements :: !Fits(a, w)
  }

  /** The item of a session for so many minutes. */
  function ItemOver(w: Session, a: Agreement, minutes: int): Item {
    SessionItem(w.id, a.teacher, w.class_, a.id, a.basis, a.rate, minutes,
                if a.basis == PerHour then (a.rate * minutes + 30) / 60 else a.rate, w.date, w.start, w.end)
  }

  lemma WorkedMembers(src: Sources, p: Dates)
    ensures forall w :: w in Worked(src, p) <==> w in src.sessions && w.completed && p.start <= w.date <= p.end
    ensures forall w :: w in Filter(src.sessions, InPeriod(p))
              <==> w in src.sessions && w.completed && p.start <= w.date <= p.end
  {
    FilterMembers(src.sessions, InPeriod(p));
    SortMembers(Filter(src.sessions, InPeriod(p)), ByDate);
  }

  /** Generation writes exactly the items of the sessions paid for, over the difference of the times cut
      to minutes. */
  lemma SessionItemsExactly(src: Sources, p: Dates, x: Item)
    requires Tables(src)
    ensures x in SessionItems(src, p)
            <==> exists w, a :: PaidFor(src, p, w, a) && x == ItemOver(w, a, w.end / 60 - w.start / 60)
  {
    WorkedMembers(src, p);
    CollectMember(Worked(src, p), PaidItem(src, p));
    forall w | w in Worked(src, p)
      ensures PaidItem(src, p)(w) == Some(x)
              <==> exists a :: PaidFor(src, p, w, a) && x == ItemOver(w, a, w.end / 60 - w.start / 60)
    {
      PaidItemExactly(src, p, w, x);
    }
  }

  lemma PaidItemExactly(src: Sources, p: Dates, w: Session, x: Item)
    requires Tables(src) && w in src.sessions && w.completed && p.start <= w.date <= p.end
    ensures PaidItem(src, p)(w) == Some(x)
            <==> exists a :: PaidFor(src, p, w, a) && x == ItemOver(w, a, w.end / 60 - w.start / 60)
  {
    AgreementIsBest(src, p, w);
    var a := AgreementFor(src, p, w);
    if a.Some? {
      assert ItemFor(w, a.value, CutMinutes(w)) == ItemOver(w, a.value, w.end / 60 - w.start / 60);
      assert Best(src, w, a.value);
      assert PaidFor(src, p, w, a.value) <==> a.value.basis != FixedClass;
      forall b | PaidFor(src, p, w, b) ensures b == a.value { assert Best(src, w, b); }
    } else {
      forall b ensures !PaidFor(src, p, w, b) {}
    }
  }

  /** The recheck expects them over the whole minutes nearest to the exact duration. */
  lemma ExpectedItemsExactly(src: Sources, p: Dates, x: Item)
    requires Tables(src)
    ensures x in ExpectedSessions(src, p)
            <==> exists w, a, minutes :: PaidFor(src, p, w, a) && NearestMinutes(w, minutes)
                                         && x == ItemOver(w, a, minutes)
  {
    WorkedMembers(src, p);
    CollectMember(Filter(src.sessions, InPeriod(p)), ExpectedItem(src));
    forall w | w in Filter(src.sessions, InPeriod(p))
      ensures ExpectedItem(src)(w) == Some(x)
              <==> exists a, minutes :: PaidFor(src, p, w, a) && NearestMinutes(w, minutes)
                                        && x == ItemOver(w, a, minutes)
    {
      ExpectedItemExactly(src, p, w, x);
    }
  }

  ghost predicate NearestMinutes(w: Session, minutes: int) {
    60 * minutes - 30 <= w.end as int - w.start as int < 60 * minutes + 30
  }

  lemma ExpectedItemExactly(src: Sources, p: Dates, w: Session, x: Item)
    requires Tables(src) && w in src.sessions && w.completed && p.start <= w.date <= p.end
    ensures ExpectedItem(src)(w) == Some(x)
            <==> exists a, minutes :: PaidFor(src, p, w, a) && NearestMinutes(w, minutes)
                                      && x == ItemOver(w, a, minutes)
  {
    AgreementIsBest(src, p, w);
    var a := LateralAgreement(src, w);
    if a.Some? {
      assert ItemFor(w, a.value, RoundedMinutes(w)) == ItemOver(w, a.value, RoundedMinutes(w));
      assert Best(src, w, a.value);
      assert NearestMinutes(w, RoundedMinutes(w));
      forall m | NearestMinutes(w, m) ensures m == RoundedMinutes(w) {}
      assert PaidFor(src, p, w, a.value) <==> a.value.basis != FixedClass;
      forall b | PaidFor(src, p, w, b) ensures b == a.value { assert Best(src, w, b); }
    } else {
      forall b ensures !PaidFor(src, p, w, b) {}
    }
  }

  /** Generation leaves unresolved exactly the sessions without a teacher or a fitting agreement. */
  lemma UnresolvedExactly(src: Sources, p: Dates, u: Unresolved)
    requires Tables(src)
    ensures u in UnresolvedRows(src, p)
            <==> exists w :: && Unpaid(src, p, w)
                             && u == Unresolved(w.id, w.teacher, w.class_, w.date,
                                                if w.teacher == None then MissingTeacher else MissingAgreement)
  {
    WorkedMembers(src, p);
    CollectMember(Worked(src, p), UnpaidRow(src, p));
    forall w | w in Worked(src, p)
      ensures UnpaidRow(src, p)(w).Some? <==> Unpaid(src, p, w)
      ensures Unpaid(src, p, w) ==>
                UnpaidRow(src, p)(w)
                == Some(Unresolved(w.id, w.teacher, w.class_, w.date,
                                   if w.teacher == None then MissingTeacher else MissingAgreement))
    {
      AgreementIsBest(src, p, w);
    }
    forall w | Unpaid(src, p, w) ensures w in Worked(src, p) {}
  }

  // ---------- fixed-class agreements ----------

  /** A fixed-class agreement in force on some day of the period, whose class completed within it. */
  ghost predicate DueFor(src: Sources, p: Dates, a: Agreement) {
    && a in src.agreements && a.basis == FixedClass && a.from <= p.end && (a.until.None? || p.start <= a.until.value)
    && a.class_.Some? && a.class_.value in src.completedOn && p.start <= src.completedOn[a.class_.value] <= p.end
  }

  function WholeItem(src: Sources, a: Agreement): Item
    requires a.class_.Some? && a.class_.value in src.completedOn
  {
    FixedItem(a.id, a.teacher, a.class_.value, a.rate, a.rate, src.completedOn[a.class_.value])
  }

  lemma {:induction false} FixedRowsFrom(src: Sources, p: Dates, agreements: seq<Agreement>, x: Item)
    ensures x in FixedItems(src, p, agreements)
            <==> exists a | a in agreements && FixedDue(src, p, a) :: x == WholeItem(src, a)
    ensures x in ExpectedFixed(src, p, agreements)
            <==> exists a | a in agreements && FixedExpected(src, p, a) :: x == WholeItem(src, a)
  {
    if |agreements| != 0 {
      var front, last := agreements[..|agreements| - 1], agreements[|agreements| - 1];
      FixedRowsFrom(src, p, front, x);
      assert agreements == front + [last];
    }
  }

  /** Generation pays exactly the due ones, their whole rate on the day of completion; the recheck
      expects of them those in force on that day. */
  lemma FixedItemsExactly(src: Sources, p: Dates, x: Item)
    ensures x in FixedItems(src, p, src.agreements) <==> exists a | DueFor(src, p, a) :: x == WholeItem(src, a)
    ensures x in ExpectedFixed(src, p, src.agreements)
            <==> exists a | DueFor(src, p, a) && a.from <= src.completedOn[a.class_.value]
                            && (a.until.None? || src.completedOn[a.class_.value] <= a.until.value) ::
                   x == WholeItem(src, a)
  {
    FixedRowsFrom(src, p, src.agreements, x);
    forall a | a in src.agreements
      ensures FixedDue(src, p, a) <==> DueFor(src, p, a)
      ensures FixedExpected(src, p, a)
              <==> DueFor(src, p, a) && a.from <= src.completedOn[a.class_.value]
                   && (a.until.None? || src.completedOn[a.class_.value] <= a.until.value)
    {
    }
  }

  // ---------- every session lands in exactly one place ----------

  /** A completed session between the period's first and last day, both included, is exactly one of:
      paid by an item, listed as unresolved, or left to a fixed-class agreement that fits it best. */
  lemma SessionLandsOnce(src: Sources, p: Dates, w: Session)
    requires Tables(src) && w in src.sessions && w.completed && p.start <= w.date <= p.end
    ensures var paid := exists x | x in SessionItems(src, p) :: x.SessionItem? && x.session == w.id;
            var unresolved := exists u | u in UnresolvedRows(src, p) :: u.session == w.id;
            var fixed := exists a :: Best(src, w, a) && a.basis == FixedClass;
            (if paid then 1 else 0) + (if unresolved then 1 else 0) + (if fixed then 1 else 0) == 1
  {
    AgreementIsBest(src, p, w);
    PaidOf(src, p, w);
    UnresolvedOf(src, p, w);
    var a := AgreementFor(src, p, w);
    if a.Some? {
      assert Best(src, w, a.value);
      forall b | Best(src, w, b) ensures b == a.value {}
      assert PaidFor(src, p, w, a.value) <==> a.value.basis != FixedClass;
      assert !Unpaid(src, p, w);
    } else {
      forall b ensures !Best(src, w, b) {}
      assert Unpaid(src, p, w);
    }
  }

  lemma PaidOf(src: Sources, p: Dates, w: Session)
    requires Tables(src) && w in src.sessions
    ensures (exists x | x in SessionItems(src, p) :: x.SessionItem? && x.session == w.id)
            <==> exists a :: PaidFor(src, p, w, a)
  {
    if x :| x in SessionItems(src, p) && x.SessionItem? && x.session == w.id {
      SessionItemsExactly(src, p, x);
      var v, a :| PaidFor(src, p, v, a) && x == ItemOver(v, a, v.end / 60 - v.start / 60);
      OneSession(src, v, w);
    }
    if a :| PaidFor(src, p, w, a) { SessionItemsExactly(src, p, ItemOver(w, a, w.end / 60 - w.start / 60)); }
  }

  lemma UnresolvedOf(src: Sources, p: Dates, w: Session)
    requires Tables(src) && w in src.sessions
    ensures (exists u | u in UnresolvedRows(src, p) :: u.session == w.id) <==> Unpaid(src, p, w)
  {
    if u :| u in UnresolvedRows(src, p) && u.session == w.id {
      UnresolvedExactly(src, p, u);
      var v :| Unpaid(src, p, v) && u.session == v.id;
      OneSession(src, v, w);
    }
    if Unpaid(src, p, w) {
      UnresolvedExactly(src, p, Unresolved(w.id, w.teacher, w.class_, w.date,
                                           if w.teacher == None then MissingTeacher else MissingAgreement));
    }
  }

  /** No other session lands anywhere. */
  lemma OthersLandNowhere(src: Sources, p: Dates, w: Session)
    requires Tables(src) && w in src.sessions && !(w.completed && p.start <= w.date <= p.end)
    ensures forall x | x in SessionItems(src, p) && x.SessionItem? :: x.session != w.id
    ensures forall u | u in UnresolvedRows(src, p) :: u.session != w.id
    ensures forall x | x in ExpectedSessions(src, p) && x.SessionItem? :: x.session != w.id
  {
    PaidOf(src, p, w);
    UnresolvedOf(src, p, w);
    forall x | x in ExpectedSessions(src, p) && x.SessionItem? ensures x.session != w.id {
      ExpectedItemsExactly(src, p, x);
      var v, a, minutes :| PaidFor(src, p, v, a) && x == ItemOver(v, a, minutes);
      if v.id == w.id { OneSession(src, v, w); }
    }
  }
}
