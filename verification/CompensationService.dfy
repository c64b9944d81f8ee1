/** The compensation service: one period's tables deleted, filled and totalled in place. */
module CompensationServices {
  import opened Collections
  import opened Ordering
  import opened Compensation
  import opened CompensationRecheck
  import opened CompensationGuards
  import opened CompensationPeriods

  datatype Reply = Committed | RolledBack(error: Error)

  predicate Executes(before: Period, result: Result, reply: Reply, after: Period) {
    match result
    case Done(period) => reply == Committed && after == period
    case Refused(error) => reply == RolledBack(error) && after == before
  }

  /** A transaction that applies its command keeps every statement right. */
  lemma AppliedBalanced(before: Period, c: Command, reply: Reply, after: Period)
    requires Balanced(before) && Executes(before, Try(before, c), reply, after)
    ensures after == Step(before, c) && Balanced(after)
  {
    StepBalanced(before, c);
  }

  predicate AnyRefused(src: Sources, claims: Claims, rows: seq<Item>) {
    exists x | x in rows :: ItemRefused(src, claims, x)
  }

  lemma RefusedAfter(src: Sources, claims: Claims, s: seq<Item>, t: seq<Item>)
    ensures AnyRefused(src, claims, s + t) <==> AnyRefused(src, claims, s) || AnyRefused(src, claims, t)
  {
  }

  lemma {:induction false} GroupedPart(src: Sources, claims: Claims, items: seq<Item>, teachers: seq<Id>, k: nat,
                                       m: nat)
    requires k <= m <= |teachers| && AnyRefused(src, claims, Grouped(items, teachers, k))
    ensures AnyRefused(src, claims, Grouped(items, teachers, m))
  {
    if k < m {
      GroupedPart(src, claims, items, teachers, k, m - 1);
      RefusedAfter(src, claims, Grouped(items, teachers, m - 1), Filter(items, OfTeacher(teachers[m - 1])));
    }
  }

  /** Inserting teacher by teacher inserts every row. */
  lemma GroupedMembers(items: seq<Item>, unresolved: seq<Unresolved>)
    ensures var teachers := TeachersOf(items, unresolved);
            forall x :: x in Grouped(items, teachers, |teachers|) <==> x in items
  {
    var teachers := TeachersOf(items, unresolved);
    TeachersCover(items, unresolved);
    GroupedSame(items, teachers);
    forall x ensures x in Grouped(items, teachers, |teachers|) <==> x in items {
      assert x in multiset(Grouped(items, teachers, |teachers|)) <==> x in multiset(items);
    }
  }

  class CompensationService {
    const dates: Dates
    var status: Status
    var generated: bool
    var statements: seq<Statement>
    var items: seq<Item>
    var unresolved: seq<Unresolved>
    var adjustments: seq<Adjustment>

    constructor (dates: Dates)
      ensures Contents() == Period(dates, Draft, false, [], [], [], [])
    {
      this.dates := dates;
      status, generated, statements, items, unresolved, adjustments := Draft, false, [], [], [], [];
    }

    function Contents(): Period
      reads this
    {
      Period(dates, status, generated, statements, items, unresolved, adjustments)
    }

    method RecomputeTotals()
      modifies this`statements
      ensures Contents() == Recompute(old(Contents()))
    {
      var totalled: seq<Statement> := [];
      for i := 0 to |statements|
        invariant totalled == Map(statements[..i], Totalled(items, adjustments))
      {
        totalled := totalled + [Totalled(items, adjustments)(statements[i])];
      }
      assert statements[..|statements|] == statements;
      statements := totalled;
    }

    method EnsureStatement(teacher: Id)
      modifies this`statements
      ensures statements == WithStatement(old(statements), teacher)
    {
      if !HasStatement(statements, teacher) { statements := statements + [Statement(teacher, 0, 0, 0)]; }
    }

    /** The first loop: each session is unresolved, skipped or paid. */
    method JudgeSessions(src: Sources) returns (short: bool, paid: seq<Item>, unpaid: seq<Unresolved>)
      ensures short <==> TooShort(src, dates)
      ensures !short ==> paid == SessionItems(src, dates) && unpaid == UnresolvedRows(src, dates)
    {
      short, paid, unpaid := false, [], [];
      var worked := Worked(src, dates);
      for i := 0 to |worked|
        invariant paid == Collect(worked[..i], PaidItem(src, dates))
        invariant unpaid == Collect(worked[..i], UnpaidRow(src, dates))
        invariant forall j | 0 <= j < i :: PaidItem(src, dates)(worked[j]).Some? ==> CutMinutes(worked[j]) > 0
      {
        var w := worked[i];
        assert worked[..i + 1][..i] == worked[..i];
        if w.teacher.None? {
          unpaid := unpaid + [UnresolvedFor(w)];
        } else {
          var agreement := AgreementFor(src, dates, w);
          if agreement.None? {
            unpaid := unpaid + [UnresolvedFor(w)];
          } else if agreement.value.basis != FixedClass {
            if CutMinutes(w) <= 0 {
              assert w in worked && PaidItem(src, dates)(w).Some?;
              short := true;
              return;
            }
            paid := paid + [ItemFor(w, agreement.value, CutMinutes(w))];
          }
        }
      }
      assert worked[..|worked|] == worked;
    }

    /** The second loop: fixed-class agreements whose class completed in the period. */
    method JudgeFixed(src: Sources) returns (paid: seq<Item>)
      ensures paid == FixedItems(src, dates, src.agreements)
    {
      paid := [];
      for i := 0 to |src.agreements|
        invariant paid == FixedItems(src, dates, src.agreements[..i])
      {
        assert src.agreements[..i + 1][..i] == src.agreements[..i];
        if FixedDue(src, dates, src.agreements[i]) { paid := paid + [FixedFor(src, src.agreements[i])]; }
      }
      assert src.agreements[..|src.agreements|] == src.agreements;
    }

    /** One teacher's items, inserted until the database refuses one. */
    method InsertRows(src: Sources, claims: Claims, rows: seq<Item>) returns (ok: bool)
      modifies this`items
      ensures ok <==> !AnyRefused(src, claims, rows)
      ensures ok ==> items == old(items) + rows
    {
      for k := 0 to |rows|
        invariant items == old(items) + rows[..k]
        invariant !AnyRefused(src, claims, rows[..k])
      {
        assert rows[..k + 1] == rows[..k] + [rows[k]];
        if ItemRefused(src, claims, rows[k]) { return false; }
        items := items + [rows[k]];
      }
      assert rows[..|rows|] == rows;
      ok := true;
    }

    /** The teacher loop: a statement for each, and its items inserted. */
    method InsertItems(src: Sources, claims: Claims, all: seq<Item>, teachers: seq<Id>) returns (ok: bool)
      modifies this`statements, this`items
      ensures ok <==> !AnyRefused(src, claims, Grouped(all, teachers, |teachers|))
      ensures ok ==> statements == AddStatements(old(statements), teachers, |teachers|)
      ensures ok ==> items == old(items) + Grouped(all, teachers, |teachers|)
    {
      for k := 0 to |teachers|
        invariant statements == AddStatements(old(statements), teachers, k)
        invariant items == old(items) + Grouped(all, teachers, k)
        invariant !AnyRefused(src, claims, Grouped(all, teachers, k))
      {
        EnsureStatement(teachers[k]);
        var rows := Filter(all, OfTeacher(teachers[k]));
        var inserted := InsertRows(src, claims, rows);
        RefusedAfter(src, claims, Grouped(all, teachers, k), rows);
        if !inserted {
          GroupedPart(src, claims, all, teachers, k + 1, |teachers|);
          return false;
        }
      }
      ok := true;
    }

    /** The unresolved rows, inserted until the database refuses one. */
    method InsertUnresolved(src: Sources, claims: Claims, rows: seq<Unresolved>) returns (ok: bool)
      modifies this`unresolved
      ensures ok <==> forall u | u in rows :: !UnpaidRefused(src, dates, claims, u)
      ensures ok ==> unresolved == old(unresolved) + rows
    {
      for k := 0 to |rows|
        invariant unresolved == old(unresolved) + rows[..k]
        invariant forall u | u in rows[..k] :: !UnpaidRefused(src, dates, claims, u)
      {
        assert rows[..k + 1] == rows[..k] + [rows[k]];
        if UnpaidRefused(src, dates, claims, rows[k]) { return false; }
        unresolved := unresolved + [rows[k]];
      }
      assert rows[..|rows|] == rows;
      ok := true;
    }

    /** Deletes the period's rows and writes the new ones, until one is refused. */
    method Rewrite(src: Sources, claims: Claims, all: seq<Item>, unpaid: seq<Unresolved>) returns (ok: bool)
      modifies this`statements, this`items, this`unresolved
      ensures ok <==> !AnyRefused(src, claims, all)
                      && (forall u | u in unpaid :: !UnpaidRefused(src, dates, claims, u))
      ensures ok ==>
        var teachers := TeachersOf(all, unpaid);
        statements == AddStatements(old(statements), teachers, |teachers|)
        && items == Grouped(all, teachers, |teachers|) && unresolved == unpaid
    {
      items, unresolved := [], [];
      var teachers := TeachersOf(all, unpaid);
      GroupedMembers(all, unpaid);
      ok := InsertItems(src, claims, all, teachers);
      if ok { ok := InsertUnresolved(src, claims, unpaid); }
    }

    /** Totals the statements, deletes those left empty, and stamps the period. */
    method Stamp()
      modifies this`statements, this`generated
      ensures Contents() == DropEmpty(Recompute(old(Contents()))).(generated := true)
    {
      RecomputeTotals();
      statements := DropEmpty(Contents()).statements;
      generated := true;
    }

    method GeneratePeriod(src: Sources, claims: Claims) returns (reply: Reply)
      modifies this
      ensures Executes(old(Contents()), Generate(old(Contents()), src, claims), reply, Contents())
    {
      if status != Draft { return RolledBack(Conflict); }
      var short, paid, unpaid := JudgeSessions(src);
      if short { return RolledBack(BadTimes); }
      var fixed := JudgeFixed(src);
      var saved := (statements, items, unresolved);
      var ok := Rewrite(src, claims, paid + fixed, unpaid);
      if !ok {
        statements, items, unresolved := saved.0, saved.1, saved.2;
        return RolledBack(ConstraintFailed);
      }
      Stamp();
      reply := Committed;
    }

    method Adjust(teachers: set<Id>, id: Id, teacher: Id, amount: int) returns (reply: Reply)
      modifies this
      ensures Executes(old(Contents()), AddAdjustment(old(Contents()), teachers, id, teacher, amount), reply,
                       Contents())
    {
      if status != Draft { return RolledBack(Conflict); }
      if teacher !in teachers { return RolledBack(NotFound); }
      if amount == 0 { return RolledBack(ConstraintFailed); }
      EnsureStatement(teacher);
      adjustments := adjustments + [Adjustment(id, teacher, amount)];
      RecomputeTotals();
      reply := Committed;
    }

    method Unadjust(id: Id) returns (reply: Reply)
      modifies this
      ensures Executes(old(Contents()), RemoveAdjustment(old(Contents()), id), reply, Contents())
    {
      if forall a | a in adjustments :: a.id != id { return RolledBack(NotFound); }
      if status != Draft { return RolledBack(Conflict); }
      adjustments := Filter(adjustments, (a: Adjustment) => a.id != id);
      RecomputeTotals();
      reply := Committed;
    }

    method FinalizePeriod(src: Sources) returns (reply: Reply)
      modifies this`status
      ensures Executes(old(Contents()), Finalize(old(Contents()), src), reply, Contents())
    {
      if status != Draft { return RolledBack(Conflict); }
      if !generated { return RolledBack(Conflict); }
      if unresolved != [] { return RolledBack(Conflict); }
      if !Canonical(Contents(), src) { return RolledBack(Conflict); }
      if AnyNegative(statements) { return RolledBack(Conflict); }
      status := Finalized;
      reply := Committed;
    }
  }
}
