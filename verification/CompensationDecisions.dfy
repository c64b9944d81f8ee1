/** When each compensation command is accepted and what it leaves in the period, in terms of the rows. */
module CompensationDecisions {
  import opened Collections
  import opened Ordering
  import opened Compensation
  import opened CompensationRecheck
  import opened CompensationGuards
  import opened CompensationPeriods
  import opened CompensationRows

  // ---------- generation ----------

  /** A paid session's row stands: whole minutes, at least half a dong, and no other period claims it. */
  ghost predicate SessionStands(claims: Claims, w: Session, a: Agreement) {
    && w.start / 60 < w.end / 60 && w.id !in claims.sessions
    && (a.basis == PerHour ==> 30 <= a.rate * (w.end / 60 - w.start / 60))
  }

  ghost predicate FixedStands(src: Sources, claims: Claims, a: Agreement)
    requires a.class_.Some? && a.class_.value in src.completedOn
  {
    && a.from <= src.completedOn[a.class_.value] && (a.until.None? || src.completedOn[a.class_.value] <= a.until.value)
    && a.id !in claims.fixed
  }

  /** A period is generated exactly while it is a draft and every row to be written stands. */
  lemma GeneratedExactly(p: Period, src: Sources, claims: Claims)
    requires Tables(src)
    ensures Try(p, GenerateCommand(src, claims)).Done?
            <==> && p.status == Draft
                 && (forall w, a | PaidFor(src, p.dates, w, a) :: SessionStands(claims, w, a))
                 && (forall a | DueFor(src, p.dates, a) :: FixedStands(src, claims, a))
                 && (forall w | Unpaid(src, p.dates, w) :: w.id !in claims.sessions)
  {
    var d := p.dates;
    forall w | w in src.sessions && w.completed && d.start <= w.date <= d.end
      ensures PaidItem(src, d)(w).None? <==> forall a :: !PaidFor(src, d, w, a)
      ensures UnpaidRow(src, d)(w).Some? <==> Unpaid(src, d, w)
    {
      PaidOrNot(src, d, w);
    }
    TooShortExactly(src, d);
    if !TooShort(src, d) {
      RefusedExactly(src, d, claims);
      SessionsStandExactly(src, d, claims);
      FixedStandExactly(src, d, claims);
    }
  }

  lemma PaidOrNot(src: Sources, d: Dates, w: Session)
    requires Tables(src) && w in src.sessions && w.completed && d.start <= w.date <= d.end
    ensures forall a | PaidFor(src, d, w, a) ::
              AgreementFor(src, d, w) == Some(a) && PaidItem(src, d)(w) == Some(ItemFor(w, a, CutMinutes(w)))
    ensures PaidItem(src, d)(w).Some? ==> PaidFor(src, d, w, AgreementFor(src, d, w).value)
    ensures UnpaidRow(src, d)(w).Some? <==> Unpaid(src, d, w)
  {
    AgreementIsBest(src, d, w);
    if AgreementFor(src, d, w).Some? { assert Best(src, w, AgreementFor(src, d, w).value); }
  }

  lemma TooShortExactly(src: Sources, d: Dates)
    requires Tables(src)
    ensures TooShort(src, d) <==> exists w, a :: PaidFor(src, d, w, a) && w.end / 60 <= w.start / 60
  {
    WorkedMembers(src, d);
    forall w | w in Worked(src, d)
      ensures PaidItem(src, d)(w).Some? <==> exists a :: PaidFor(src, d, w, a)
    {
      PaidOrNot(src, d, w);
    }
  }

  lemma SessionsStandExactly(src: Sources, d: Dates, claims: Claims)
    requires Tables(src) && !TooShort(src, d)
    ensures (exists w | w in src.sessions && Payable(d, w) :: SessionRefused(src, d, claims, w))
            <==> exists w, a :: PaidFor(src, d, w, a) && !SessionStands(claims, w, a)
    ensures (exists w | w in src.sessions && Payable(d, w) :: UnpaidClaimed(src, d, claims, w))
            <==> exists w :: Unpaid(src, d, w) && w.id in claims.sessions
  {
    TooShortExactly(src, d);
    forall w | w in src.sessions && Payable(d, w)
      ensures SessionRefused(src, d, claims, w) <==> exists a :: PaidFor(src, d, w, a) && !SessionStands(claims, w, a)
      ensures UnpaidClaimed(src, d, claims, w) <==> Unpaid(src, d, w) && w.id in claims.sessions
    {
      PaidOrNot(src, d, w);
    }
  }

  lemma FixedStandExactly(src: Sources, d: Dates, claims: Claims)
    ensures (exists a | a in src.agreements :: FixedRefused(src, d, claims, a))
            <==> exists a :: DueFor(src, d, a) && !FixedStands(src, claims, a)
  {
    forall a | a in src.agreements
      ensures FixedRefused(src, d, claims, a) <==> DueFor(src, d, a) && !FixedStands(src, claims, a)
    {
    }
  }

  // ---------- what is written ----------

  function Earned(items: seq<Item>, teacher: Id): int {
    Sum(items, (x: Item) => if x.teacher == teacher then x.amount else 0)
  }

  function Adjusted(adjustments: seq<Adjustment>, teacher: Id): int {
    Sum(adjustments, (a: Adjustment) => if a.teacher == teacher then a.amount else 0)
  }

  /** Every statement adds up its teacher's items and adjustments. */
  ghost predicate AddsUp(p: Period) {
    forall s | s in p.statements ::
      && s.earnings == Earned(p.items, s.teacher) && s.adjustments == Adjusted(p.adjustments, s.teacher)
      && s.payable == s.earnings + s.adjustments
  }

  lemma TotalsAddUp(p: Period)
    requires Totals(p)
    ensures AddsUp(p)
  {
    forall s | s in p.statements
      ensures s.earnings == Earned(p.items, s.teacher) && s.adjustments == Adjusted(p.adjustments, s.teacher)
    {
      SumSame(p.items, ItemAmount(s.teacher), (x: Item) => if x.teacher == s.teacher then x.amount else 0);
      SumSame(p.adjustments, AdjustmentAmount(s.teacher), (a: Adjustment) =>
                if a.teacher == s.teacher then a.amount else 0);
    }
  }

  ghost predicate Stated(p: Period, teacher: Id) {
    exists s | s in p.statements :: s.teacher == teacher
  }

  lemma StatedIs(p: Period)
    ensures forall t :: Stated(p, t) <==> HasStatement(p.statements, t)
  {
    forall t ensures Stated(p, t) <==> HasStatement(p.statements, t) {
      if i :| 0 <= i < |p.statements| && p.statements[i].teacher == t { assert p.statements[i] in p.statements; }
    }
  }

  /** A generated period holds the generated rows in place of the former, keeps its adjustments, and has
      one statement that adds up for each teacher of an item or an adjustment, and for no one else. */
  lemma GenerateWrites(p: Period, src: Sources, claims: Claims)
    requires Balanced(p) && Try(p, GenerateCommand(src, claims)).Done?
    ensures var q := Step(p, GenerateCommand(src, claims));
            && q.dates == p.dates && q.status == Draft && q.generated && q.adjustments == p.adjustments
            && multiset(q.items) == multiset(Generated(src, p.dates)) && q.unresolved == UnresolvedRows(src, p.dates)
            && AddsUp(q) && UniqueTeachers(q.statements)
            && forall t :: Stated(q, t)
                 <==> (exists x | x in q.items :: x.teacher == t) || (exists a | a in q.adjustments :: a.teacher == t)
  {
    GeneratesFilled(p, src, claims);
    FilledWrites(p, Generated(src, p.dates), UnresolvedRows(src, p.dates));
  }

  lemma GeneratesFilled(p: Period, src: Sources, claims: Claims)
    requires Try(p, GenerateCommand(src, claims)).Done?
    ensures p.status == Draft
    ensures Step(p, GenerateCommand(src, claims)) == Filled(p, Generated(src, p.dates), UnresolvedRows(src, p.dates))
  {}

  lemma FilledWrites(p: Period, items: seq<Item>, unresolved: seq<Unresolved>)
    requires Balanced(p)
    ensures var q := Filled(p, items, unresolved);
            && q.dates == p.dates && q.status == p.status && q.generated && q.adjustments == p.adjustments
            && multiset(q.items) == multiset(items) && q.unresolved == unresolved
            && AddsUp(q) && UniqueTeachers(q.statements)
            && forall t :: Stated(q, t)
                 <==> (exists x | x in q.items :: x.teacher == t) || (exists a | a in q.adjustments :: a.teacher == t)
  {
    FilledBalanced(p, items, unresolved);
    TotalsAddUp(Filled(p, items, unresolved));
    FilledStates(p, items, unresolved);
  }

  lemma FilledStates(p: Period, items: seq<Item>, unresolved: seq<Unresolved>)
    requires Balanced(Filled(p, items, unresolved))
    ensures var q := Filled(p, items, unresolved);
            forall t :: Stated(q, t)
              <==> (exists x | x in q.items :: x.teacher == t) || (exists a | a in q.adjustments :: a.teacher == t)
  {
    var q, teachers := Filled(p, items, unresolved), TeachersOf(items, unresolved);
    var r := Recompute(p.(statements := AddStatements(p.statements, teachers, |teachers|),
                          items := Grouped(items, teachers, |teachers|), unresolved := unresolved));
    FilterMembers(r.statements, (s: Statement) => Kept(r.items, r.adjustments, s));
    assert forall s | s in q.statements :: Kept(q.items, q.adjustments, s);
    StatedIs(q);
  }

  // ---------- adjustments ----------

  /** An adjustment is added exactly to a draft, for a known teacher and an amount other than nothing;
      whoever had no statement gets one, and all add up. */
  lemma AdjustedExactly(p: Period, teachers: set<Id>, id: Id, teacher: Id, amount: int)
    requires Balanced(p)
    ensures Try(p, AddCommand(teachers, id, teacher, amount)).Done?
            <==> p.status == Draft && teacher in teachers && amount != 0
    ensures Try(p, AddCommand(teachers, id, teacher, amount)).Done? ==>
              var q := Step(p, AddCommand(teachers, id, teacher, amount));
              && q == p.(adjustments := p.adjustments + [Adjustment(id, teacher, amount)], statements := q.statements)
              && AddsUp(q) && UniqueTeachers(q.statements) && forall t :: Stated(q, t) <==> Stated(p, t) || t == teacher
  {
    if Try(p, AddCommand(teachers, id, teacher, amount)).Done? {
      var q := Step(p, AddCommand(teachers, id, teacher, amount));
      AddAdjustmentBalanced(p, teachers, id, teacher, amount);
      StatementAdded(p.statements, teacher);
      RecomputeTotals(p.(statements := WithStatement(p.statements, teacher),
                         adjustments := p.adjustments + [Adjustment(id, teacher, amount)]));
      TotalsAddUp(q);
      StatedIs(p);
      StatedIs(q);
    }
  }

  /** One is removed exactly from a draft that has it; every other row stays, and all add up. */
  lemma UnadjustedExactly(p: Period, id: Id)
    requires Balanced(p)
    ensures Try(p, RemoveCommand(id)).Done? <==> p.status == Draft && exists a | a in p.adjustments :: a.id == id
    ensures Try(p, RemoveCommand(id)) == Refused(NotFound) <==> forall a | a in p.adjustments :: a.id != id
    ensures Try(p, RemoveCommand(id)).Done? ==>
              var q := Step(p, RemoveCommand(id));
              && q == p.(adjustments := q.adjustments, statements := q.statements)
              && (forall a :: a in q.adjustments <==> a in p.adjustments && a.id != id)
              && AddsUp(q) && UniqueTeachers(q.statements) && forall t :: Stated(q, t) <==> Stated(p, t)
  {
    if Try(p, RemoveCommand(id)).Done? {
      var q := Step(p, RemoveCommand(id));
      RemoveAdjustmentBalanced(p, id);
      FilterMembers(p.adjustments, (a: Adjustment) => a.id != id);
      RecomputeTotals(p.(adjustments := Filter(p.adjustments, (a: Adjustment) => a.id != id)));
      TotalsAddUp(q);
      StatedIs(p);
      StatedIs(q);
    }
  }

  // ---------- finalization ----------

  /** The comparison looks at every column, at the times only to the minute, and of a fixed-class item
      not at its amount. */
  lemma ComparedExactly(x: Item, y: Item)
    ensures Compared(x) == Compared(y)
            <==> (x.SessionItem? && y.SessionItem? && x.start / 60 == y.start / 60 && x.end / 60 == y.end / 60
                  && y == x.(start := y.start, end := y.end))
                 || (x.FixedItem? && y.FixedItem? && y == x.(amount := y.amount))
  {}

  /** A period is finalized exactly when it is a generated draft without unresolved rows, none is
      expected, its items are to the comparison those expected, and no one would have to pay back. */
  lemma FinalizedExactly(p: Period, src: Sources)
    requires Tables(src)
    ensures Try(p, FinalizeCommand(src)).Done?
            <==> && p.status == Draft && p.generated && p.unresolved == [] && (forall w :: !Unpaid(src, p.dates, w))
                 && ComparedRows(Filter(p.items, (x: Item) => x.SessionItem?))
                    == ComparedRows(ExpectedSessions(src, p.dates))
                 && ComparedRows(Filter(p.items, (x: Item) => x.FixedItem?))
                    == ComparedRows(ExpectedFixed(src, p.dates, src.agreements))
                 && forall s | s in p.statements :: 0 <= s.payable
    ensures Try(p, FinalizeCommand(src)).Done? ==> Step(p, FinalizeCommand(src)) == p.(status := Finalized)
  {
    SameUnresolved(src, p.dates);
    if w :| Unpaid(src, p.dates, w) {
      UnresolvedOf(src, p.dates, w);
      var u :| u in UnresolvedRows(src, p.dates) && u.session == w.id;
      assert u in multiset(ExpectedUnresolved(src, p.dates));
    } else if ExpectedUnresolved(src, p.dates) != [] {
      var u := ExpectedUnresolved(src, p.dates)[0];
      assert u in multiset(UnresolvedRows(src, p.dates));
      UnresolvedExactly(src, p.dates, u);
    }
  }
}
