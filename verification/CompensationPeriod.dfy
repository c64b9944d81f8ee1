/** A compensation period: generation, adjustments and finalization over its statements. */
module CompensationPeriods {
  import opened Collections
  import opened Ordering
  import opened Compensation
  import opened CompensationRecheck
  import opened CompensationGuards

  datatype Status = Draft | Finalized
  datatype Statement = Statement(teacher: Id, earnings: int, adjustments: int, payable: int)
  datatype Adjustment = Adjustment(id: Id, teacher: Id, amount: int)

  /** A period has one statement per teacher; an item stands on its teacher's. */
  datatype Period = Period(dates: Dates, status: Status, generated: bool, statements: seq<Statement>, items: seq<Item>,
                           unresolved: seq<Unresolved>, adjustments: seq<Adjustment>)

  datatype Error = NotFound | Conflict | BadTimes | ConstraintFailed
  datatype Result = Done(period: Period) | Refused(error: Error)

  // ---------- totals ----------

  function ItemAmount(teacher: Id): Item -> int {
    (x: Item) => if x.teacher == teacher then x.amount else 0
  }

  function AdjustmentAmount(teacher: Id): Adjustment -> int {
    (x: Adjustment) => if x.teacher == teacher then x.amount else 0
  }

  function Totalled(items: seq<Item>, adjustments: seq<Adjustment>): Statement -> Statement {
    (s: Statement) =>
      var earned, adjusted := Sum(items, ItemAmount(s.teacher)), Sum(adjustments, AdjustmentAmount(s.teacher));
      Statement(s.teacher, earned, adjusted, earned + adjusted)
  }

  function Recompute(p: Period): Period {
    p.(statements := Map(p.statements, Totalled(p.items, p.adjustments)))
  }

  predicate HasStatement(statements: seq<Statement>, teacher: Id) {
    exists i | 0 <= i < |statements| :: statements[i].teacher == teacher
  }

  /** INSERT .. ON CONFLICT (period, teacher) DO NOTHING */
  function WithStatement(statements: seq<Statement>, teacher: Id): seq<Statement> {
    if HasStatement(statements, teacher) then statements else statements + [Statement(teacher, 0, 0, 0)]
  }

  // ---------- generation ----------

  /** new Set(..): each value once, in order of first appearance. */
  function Unique(s: seq<Id>): seq<Id> {
    if |s| == 0 then []
    else
      var front, last := Unique(s[..|s| - 1]), s[|s| - 1];
      if last in front then front else front + [last]
  }

  function UnresolvedTeachers(rows: seq<Unresolved>): seq<Id> {
    if |rows| == 0 then []
    else
      var last := rows[|rows| - 1];
      UnresolvedTeachers(rows[..|rows| - 1]) + if last.teacher.Some? then [last.teacher.value] else []
  }

  function TeachersOf(items: seq<Item>, unresolved: seq<Unresolved>): seq<Id> {
    Unique(Map(items, (x: Item) => x.teacher) + UnresolvedTeachers(unresolved))
  }

  function OfTeacher(teacher: Id): Item -> bool {
    (x: Item) => x.teacher == teacher
  }

  function AddStatements(statements: seq<Statement>, teachers: seq<Id>, k: nat): seq<Statement>
    requires k <= |teachers|
  {
    if k == 0 then statements else WithStatement(AddStatements(statements, teachers, k - 1), teachers[k - 1])
  }

  /** The items teacher by teacher, as the insert loop writes them. */
  function Grouped(items: seq<Item>, teachers: seq<Id>, k: nat): seq<Item>
    requires k <= |teachers|
  {
    if k == 0 then [] else Grouped(items, teachers, k - 1) + Filter(items, OfTeacher(teachers[k - 1]))
  }

  predicate Kept(items: seq<Item>, adjustments: seq<Adjustment>, s: Statement) {
    (exists x | x in items :: x.teacher == s.teacher) || (exists a | a in adjustments :: a.teacher == s.teacher)
  }

  function DropEmpty(p: Period): Period {
    p.(statements := Filter(p.statements, (s: Statement) => Kept(p.items, p.adjustments, s)))
  }

  /** A paid session too short for a whole minute stops the generation. */
  predicate TooShort(src: Sources, p: Dates) {
    exists w | w in Worked(src, p) :: PaidItem(src, p)(w).Some? && CutMinutes(w) <= 0
  }

  /** A row the triggers or unique indexes refuse aborts the generation. */
  predicate RowsRefused(src: Sources, p: Dates, claims: Claims) {
    || (exists x | x in Generated(src, p) :: ItemRefused(src, claims, x))
    || (exists u | u in UnresolvedRows(src, p) :: UnpaidRefused(src, p, claims, u))
  }

  function Filled(p: Period, items: seq<Item>, unresolved: seq<Unresolved>): Period {
    var teachers := TeachersOf(items, unresolved);
    DropEmpty(Recompute(p.(statements := AddStatements(p.statements, teachers, |teachers|),
                           items := Grouped(items, teachers, |teachers|),
                           unresolved := unresolved))).(generated := true)
  }

  function Generate(p: Period, src: Sources, claims: Claims): Result {
    if p.status != Draft then Refused(Conflict)
    else if TooShort(src, p.dates) then Refused(BadTimes)
    else if RowsRefused(src, p.dates, claims) then Refused(ConstraintFailed)
    else Done(Filled(p, Generated(src, p.dates), UnresolvedRows(src, p.dates)))
  }

  // ---------- adjustments ----------

  function AddAdjustment(p: Period, teachers: set<Id>, id: Id, teacher: Id, amount: int): Result {
    if p.status != Draft then Refused(Conflict)
    else if teacher !in teachers then Refused(NotFound)
    else if amount == 0 then Refused(ConstraintFailed)
    else Done(Recompute(p.(statements := WithStatement(p.statements, teacher),
                           adjustments := p.adjustments + [Adjustment(id, teacher, amount)])))
  }

  function RemoveAdjustment(p: Period, id: Id): Result {
    if forall a | a in p.adjustments :: a.id != id then Refused(NotFound)
    else if p.status != Draft then Refused(Conflict)
    else Done(Recompute(p.(adjustments := Filter(p.adjustments, (a: Adjustment) => a.id != id))))
  }

  // ---------- finalization ----------

  /** assertDraftCanonical: three comparisons of sorted rows. */
  predicate Canonical(p: Period, src: Sources) {
    && ComparedRows(Filter(p.items, (x: Item) => x.SessionItem?)) == ComparedRows(ExpectedSessions(src, p.dates))
    && multiset(p.unresolved) == multiset(ExpectedUnresolved(src, p.dates))
    && ComparedRows(Filter(p.items, (x: Item) => x.FixedItem?))
       == ComparedRows(ExpectedFixed(src, p.dates, src.agreements))
  }

  predicate AnyNegative(statements: seq<Statement>) {
    exists s | s in statements :: s.payable < 0
  }

  function Finalize(p: Period, src: Sources): Result {
    if p.status != Draft || !p.generated || p.unresolved != [] then Refused(Conflict)
    else if !Canonical(p, src) || AnyNegative(p.statements) then Refused(Conflict)
    else Done(p.(status := Finalized))
  }

  // ---------- the invariant ----------

  ghost predicate UniqueTeachers(statements: seq<Statement>) {
    forall i, j | 0 <= i < j < |statements| :: statements[i].teacher != statements[j].teacher
  }

  ghost predicate Covered(p: Period) {
    && (forall x | x in p.items :: HasStatement(p.statements, x.teacher))
    && (forall a | a in p.adjustments :: HasStatement(p.statements, a.teacher))
  }

  ghost predicate Totals(p: Period) {
    forall s | s in p.statements :: s == Totalled(p.items, p.adjustments)(s)
  }

  /** One statement per teacher; no item or adjustment without one; every total right. */
  ghost predicate Balanced(p: Period) {
    UniqueTeachers(p.statements) && Covered(p) && Totals(p)
  }

  lemma RecomputeTotals(p: Period)
    ensures Totals(Recompute(p))
    ensures UniqueTeachers(p.statements) ==> UniqueTeachers(Recompute(p).statements)
    ensures forall t :: HasStatement(Recompute(p).statements, t) <==> HasStatement(p.statements, t)
  {
    var r := Recompute(p);
    assert forall i | 0 <= i < |p.statements| :: r.statements[i].teacher == p.statements[i].teacher;
    forall t | HasStatement(p.statements, t) ensures HasStatement(r.statements, t) {
      var i :| 0 <= i < |p.statements| && p.statements[i].teacher == t;
      assert r.statements[i].teacher == t;
    }
    forall s | s in r.statements ensures s == Totalled(r.items, r.adjustments)(s) {
      var i :| 0 <= i < |r.statements| && r.statements[i] == s;
    }
  }

  lemma StatementAdded(statements: seq<Statement>, teacher: Id)
    requires UniqueTeachers(statements)
    ensures UniqueTeachers(WithStatement(statements, teacher))
    ensures forall t ::
      HasStatement(WithStatement(statements, teacher), t) <==> HasStatement(statements, t) || t == teacher
  {
    var after := WithStatement(statements, teacher);
    if !HasStatement(statements, teacher) { assert after[|statements|].teacher == teacher; }
    forall t | HasStatement(statements, t) ensures HasStatement(after, t) {
      var i :| 0 <= i < |statements| && statements[i].teacher == t;
      assert after[i] == statements[i];
    }
  }

  lemma {:induction false} StatementsAdded(statements: seq<Statement>, teachers: seq<Id>, k: nat)
    requires UniqueTeachers(statements) && k <= |teachers|
    ensures UniqueTeachers(AddStatements(statements, teachers, k))
    ensures forall t ::
      HasStatement(AddStatements(statements, teachers, k), t) <==> HasStatement(statements, t) || t in teachers[..k]
  {
    if k != 0 {
      StatementsAdded(statements, teachers, k - 1);
      StatementAdded(AddStatements(statements, teachers, k - 1), teachers[k - 1]);
      assert teachers[..k] == teachers[..k - 1] + [teachers[k - 1]];
    }
  }

  lemma {:induction false} StatementsKept(statements: seq<Statement>, keep: Statement -> bool)
    requires UniqueTeachers(statements)
    ensures UniqueTeachers(Filter(statements, keep))
  {
    if |statements| != 0 {
      var front := statements[..|statements| - 1];
      StatementsKept(front, keep);
      FilterMembers(front, keep);
      var r := Filter(front, keep);
      forall i | 0 <= i < |r| ensures r[i].teacher != statements[|statements| - 1].teacher { assert r[i] in front; }
    }
  }

  lemma DropEmptyBalanced(p: Period)
    requires Balanced(p)
    ensures Balanced(DropEmpty(p))
  {
    var keep := (s: Statement) => Kept(p.items, p.adjustments, s);
    var r := DropEmpty(p);
    StatementsKept(p.statements, keep);
    FilterMembers(p.statements, keep);
    forall t | HasStatement(p.statements, t)
      && ((exists x | x in p.items :: x.teacher == t) || (exists a | a in p.adjustments :: a.teacher == t))
      ensures HasStatement(r.statements, t)
    {
      var i :| 0 <= i < |p.statements| && p.statements[i].teacher == t;
      assert p.statements[i] in p.statements && keep(p.statements[i]);
      var j :| 0 <= j < |r.statements| && r.statements[j] == p.statements[i];
    }
  }

  // ---------- grouping by teacher ----------

  lemma {:induction false} UniqueIds(s: seq<Id>)
    ensures Distinct(Unique(s))
    ensures forall x :: x in Unique(s) <==> x in s
  {
    if |s| != 0 {
      UniqueIds(s[..|s| - 1]);
      assert s == s[..|s| - 1] + [s[|s| - 1]];
    }
  }

  lemma TeachersCover(items: seq<Item>, unresolved: seq<Unresolved>)
    ensures Distinct(TeachersOf(items, unresolved))
    ensures forall x | x in items :: x.teacher in TeachersOf(items, unresolved)
  {
    var teachers := Map(items, (x: Item) => x.teacher);
    UniqueIds(teachers + UnresolvedTeachers(unresolved));
    forall x | x in items ensures x.teacher in teachers {
      var i :| 0 <= i < |items| && items[i] == x;
      assert teachers[i] == x.teacher;
    }
  }

  lemma NotEarlier(teachers: seq<Id>, k: nat)
    requires k < |teachers| && Distinct(teachers)
    ensures teachers[k] !in teachers[..k]
    ensures forall t :: t in teachers[..k + 1] <==> t in teachers[..k] || t == teachers[k]
  {
    assert teachers[..k + 1] == teachers[..k] + [teachers[k]];
  }

  function If(condition: bool, x: Item): multiset<Item> {
    if condition then multiset{x} else multiset{}
  }

  lemma {:induction false} GroupedSnoc(items: seq<Item>, x: Item, teachers: seq<Id>, k: nat)
    requires k <= |teachers| && Distinct(teachers)
    ensures multiset(Grouped(items + [x], teachers, k))
            == multiset(Grouped(items, teachers, k)) + If(x.teacher in teachers[..k], x)
  {
    if k != 0 {
      var t := teachers[k - 1];
      GroupedSnoc(items, x, teachers, k - 1);
      FilterSnoc(items, x, OfTeacher(t));
      NotEarlier(teachers, k - 1);
      var before, own := Grouped(items, teachers, k - 1), Filter(items, OfTeacher(t));
      if x.teacher == t {
        assert Grouped(items + [x], teachers, k) == Grouped(items + [x], teachers, k - 1) + (own + [x]);
        assert multiset(own + [x]) == multiset(own) + multiset{x};
      } else {
        assert Grouped(items + [x], teachers, k) == Grouped(items + [x], teachers, k - 1) + own;
      }
    }
  }

  lemma {:induction false} GroupedNone(teachers: seq<Id>, k: nat)
    requires k <= |teachers|
    ensures Grouped([], teachers, k) == []
  {
    if k != 0 { GroupedNone(teachers, k - 1); }
  }

  /** Writing the items teacher by teacher neither loses nor repeats one. */
  lemma {:induction false} GroupedSame(items: seq<Item>, teachers: seq<Id>)
    requires Distinct(teachers) && forall x | x in items :: x.teacher in teachers
    ensures multiset(Grouped(items, teachers, |teachers|)) == multiset(items)
  {
    if |items| == 0 {
      GroupedNone(teachers, |teachers|);
    } else {
      var front, x := items[..|items| - 1], items[|items| - 1];
      assert items == front + [x];
      GroupedSame(front, teachers);
      GroupedSnoc(front, x, teachers, |teachers|);
      assert teachers[..|teachers|] == teachers;
    }
  }

  // ---------- every command keeps the balance ----------

  lemma FilledBalanced(p: Period, items: seq<Item>, unresolved: seq<Unresolved>)
    requires Balanced(p)
    ensures Balanced(Filled(p, items, unresolved))
    ensures multiset(Filled(p, items, unresolved).items) == multiset(items)
  {
    var teachers := TeachersOf(items, unresolved);
    var q := p.(statements := AddStatements(p.statements, teachers, |teachers|),
                items := Grouped(items, teachers, |teachers|), unresolved := unresolved);
    TeachersCover(items, unresolved);
    GroupedSame(items, teachers);
    StatementsAdded(p.statements, teachers, |teachers|);
    assert teachers[..|teachers|] == teachers;
    forall x | x in q.items ensures HasStatement(q.statements, x.teacher) {
      assert x in multiset(q.items);
      assert x in items;
    }
    RecomputeTotals(q);
    DropEmptyBalanced(Recompute(q));
  }

  lemma AddAdjustmentBalanced(p: Period, teachers: set<Id>, id: Id, teacher: Id, amount: int)
    requires Balanced(p) && AddAdjustment(p, teachers, id, teacher, amount).Done?
    ensures Balanced(AddAdjustment(p, teachers, id, teacher, amount).period)
  {
    StatementAdded(p.statements, teacher);
    RecomputeTotals(p.(statements := WithStatement(p.statements, teacher),
                       adjustments := p.adjustments + [Adjustment(id, teacher, amount)]));
  }

  lemma RemoveAdjustmentBalanced(p: Period, id: Id)
    requires Balanced(p) && RemoveAdjustment(p, id).Done?
    ensures Balanced(RemoveAdjustment(p, id).period)
  {
    FilterMembers(p.adjustments, (a: Adjustment) => a.id != id);
    RecomputeTotals(p.(adjustments := Filter(p.adjustments, (a: Adjustment) => a.id != id)));
  }

  datatype Command =
    | GenerateCommand(src: Sources, claims: Claims)
    | AddCommand(teachers: set<Id>, id: Id, teacher: Id, amount: int)
    | RemoveCommand(id: Id)
    | FinalizeCommand(src: Sources)

  function Try(p: Period, c: Command): Result {
    match c
    case GenerateCommand(src, claims) => Generate(p, src, claims)
    case AddCommand(teachers, id, teacher, amount) => AddAdjustment(p, teachers, id, teacher, amount)
    case RemoveCommand(id) => RemoveAdjustment(p, id)
    case FinalizeCommand(src) => Finalize(p, src)
  }

  function Step(p: Period, c: Command): Period {
    match Try(p, c)
    case Done(period) => period
    case Refused(_) => p
  }

  /** Every step keeps one right statement per teacher, and none changes a finalized period. */
  lemma StepBalanced(p: Period, c: Command)
    requires Balanced(p)
    ensures Balanced(Step(p, c))
    ensures p.status == Finalized ==> Step(p, c) == p
  {
    match c
    case GenerateCommand(src, claims) =>
      if Try(p, c).Done? { FilledBalanced(p, Generated(src, p.dates), UnresolvedRows(src, p.dates)); }
    case AddCommand(teachers, id, teacher, amount) =>
      if Try(p, c).Done? { AddAdjustmentBalanced(p, teachers, id, teacher, amount); }
    case RemoveCommand(id) => if Try(p, c).Done? { RemoveAdjustmentBalanced(p, id); }
    case FinalizeCommand(_) =>
  }

  function Run(dates: Dates, commands: seq<Command>): Period {
    if |commands| == 0 then Period(dates, Draft, false, [], [], [], [])
    else Step(Run(dates, commands[..|commands| - 1]), commands[|commands| - 1])
  }

  lemma {:induction false} RunBalanced(dates: Dates, commands: seq<Command>)
    ensures Balanced(Run(dates, commands))
  {
    if |commands| != 0 {
      RunBalanced(dates, commands[..|commands| - 1]);
      StepBalanced(Run(dates, commands[..|commands| - 1]), commands[|commands| - 1]);
    }
  }

  // ---------- conservation ----------

  function AcrossItems(s: Statement): Item -> int { ItemAmount(s.teacher) }

  function ByStatement(x: Item): Statement -> int {
    (s: Statement) => if x.teacher == s.teacher then x.amount else 0
  }

  lemma StatementsDistinct(statements: seq<Statement>)
    requires UniqueTeachers(statements)
    ensures Distinct(statements)
  {}

  /** In every reachable state the statements' earnings add up to the items' amounts: no item is
      lost to all statements or counted in two. */
  lemma EarningsConserved(p: Period)
    requires Balanced(p)
    ensures Sum(p.statements, (s: Statement) => s.earnings) == Sum(p.items, (x: Item) => x.amount)
  {
    var group := (s: Statement) => s.earnings;
    StatementsDistinct(p.statements);
    forall x | x in p.items ensures Sum(p.statements, ByStatement(x)) == x.amount {
      var i :| 0 <= i < |p.statements| && p.statements[i].teacher == x.teacher;
      forall s | s in p.statements ensures ByStatement(x)(s) == if s == p.statements[i] then x.amount else 0 {
        var j :| 0 <= j < |p.statements| && p.statements[j] == s;
      }
      SumSingle(p.statements, p.statements[i], x.amount, ByStatement(x));
    }
    SumExchange(p.statements, p.items, AcrossItems, ByStatement, group, (x: Item) => x.amount);
  }

  // ---------- generation then finalization ----------

  lemma {:induction false} SessionsOnly(src: Sources, p: Dates, s: seq<Session>)
    ensures forall x | x in Collect(s, PaidItem(src, p)) :: x.SessionItem?
  {
    CollectMember(s, PaidItem(src, p));
  }

  lemma {:induction false} FixedOnly(src: Sources, p: Dates, agreements: seq<Agreement>)
    ensures forall x | x in FixedItems(src, p, agreements) :: x.FixedItem?
  {
    if |agreements| != 0 { FixedOnly(src, p, agreements[..|agreements| - 1]); }
  }

  lemma {:induction false} FilterMultiset<T>(s: seq<T>, t: seq<T>, p: T -> bool)
    requires multiset(s) == multiset(t)
    ensures multiset(Filter(s, p)) == multiset(Filter(t, p))
  {
    FilterCount(s, p);
    FilterCount(t, p);
  }

  lemma {:induction false} FilterCount<T>(s: seq<T>, p: T -> bool)
    ensures forall x | x in s && p(x) :: multiset(Filter(s, p))[x] == multiset(s)[x]
    ensures forall x | x in Filter(s, p) :: x in s && p(x)
  {
    FilterMembers(s, p);
    if |s| != 0 {
      var front, last := s[..|s| - 1], s[|s| - 1];
      FilterCount(front, p);
      FilterMembers(front, p);
      assert s == front + [last];
      forall x | x in s && p(x) ensures multiset(Filter(s, p))[x] == multiset(s)[x] {
        if x !in front { assert multiset(front)[x] == 0 == multiset(Filter(front, p))[x]; }
      }
    }
  }

  lemma {:induction false} FilterConcatenated<T>(s: seq<T>, t: seq<T>, p: T -> bool)
    requires (forall x | x in s :: p(x)) && (forall x | x in t :: !p(x))
    ensures Filter(s + t, p) == s && Filter(t + s, p) == s
  {
    if |t| == 0 {
      assert s + t == s && t + s == s;
      FilterAll(s, p);
    } else {
      var front, x := t[..|t| - 1], t[|t| - 1];
      assert s + t == (s + front) + [x];
      FilterConcatenated(s, front, p);
      FilterSnoc(s + front, x, p);
      FilterRight(t, s, p);
    }
  }

  lemma {:induction false} FilterRight<T>(t: seq<T>, s: seq<T>, p: T -> bool)
    requires (forall x | x in s :: p(x)) && (forall x | x in t :: !p(x))
    ensures Filter(t + s, p) == s
  {
    if |s| == 0 {
      assert t + s == t;
      FilterNothing(t, p);
    } else {
      var front, x := s[..|s| - 1], s[|s| - 1];
      assert t + s == (t + front) + [x] && x in s && s == front + [x];
      FilterRight(t, front, p);
      FilterSnoc(t + front, x, p);
    }
  }

  lemma {:induction false} FilterNothing<T>(t: seq<T>, p: T -> bool)
    requires forall x | x in t :: !p(x)
    ensures Filter(t, p) == []
  {
    if |t| != 0 {
      assert t[|t| - 1] in t;
      FilterNothing(t[..|t| - 1], p);
    }
  }

  lemma GeneratedSplit(src: Sources, p: Dates, items: seq<Item>)
    requires multiset(items) == multiset(Generated(src, p))
    ensures multiset(Filter(items, (x: Item) => x.SessionItem?)) == multiset(SessionItems(src, p))
    ensures multiset(Filter(items, (x: Item) => x.FixedItem?)) == multiset(FixedItems(src, p, src.agreements))
  {
    var sessions, fixed := SessionItems(src, p), FixedItems(src, p, src.agreements);
    SessionsOnly(src, p, Worked(src, p));
    FixedOnly(src, p, src.agreements);
    FilterMultiset(items, sessions + fixed, (x: Item) => x.SessionItem?);
    FilterMultiset(items, sessions + fixed, (x: Item) => x.FixedItem?);
    FilterConcatenated(sessions, fixed, (x: Item) => x.SessionItem?);
    FilterConcatenated(fixed, sessions, (x: Item) => x.FixedItem?);
  }

  /** Fixed-class items that were inserted come from agreements in force on the completion day. */
  lemma InsertedCovers(src: Sources, p: Dates, claims: Claims)
    requires Tables(src) && !RowsRefused(src, p, claims)
    ensures AllCovered(src, p, src.agreements)
  {
    FixedItemsFrom(src, p, src.agreements);
    forall a | a in src.agreements && FixedDue(src, p, a) ensures Covers(src, a) {
      assert FixedFor(src, a) in Generated(src, p);
      FixedItemAccepted(src, p, a);
    }
  }

  /** Half a dong of hourly pay, or another period's claim on the session. */
  predicate SessionRefused(src: Sources, p: Dates, claims: Claims, w: Session) {
    PaidItem(src, p)(w).Some?
    && (w.id in claims.sessions || (PaidItem(src, p)(w).value.basis == PerHour
                                    && PaidItem(src, p)(w).value.rate * CutMinutes(w) < 30))
  }

  predicate FixedRefused(src: Sources, p: Dates, claims: Claims, a: Agreement) {
    FixedDue(src, p, a) && (!Covers(src, a) || a.id in claims.fixed)
  }

  predicate UnpaidClaimed(src: Sources, p: Dates, claims: Claims, w: Session) {
    UnpaidRow(src, p)(w).Some? && w.id in claims.sessions
  }

  lemma SessionRefusedExactly(src: Sources, p: Dates, claims: Claims, w: Session)
    requires Tables(src) && !TooShort(src, p) && w in src.sessions && Payable(p, w) && PaidItem(src, p)(w).Some?
    ensures ItemRefused(src, claims, PaidItem(src, p)(w).value) <==> SessionRefused(src, p, claims, w)
  {
    InPeriodRows(src, p);
    SortMembers(Filter(src.sessions, InPeriod(p)), ByDate);
    assert w in Worked(src, p);
    SessionItemAccepted(src, p, w);
    AmountPositive(AgreementFor(src, p, w).value.rate, PaidItem(src, p)(w).value.basis, CutMinutes(w));
  }

  /** The database refuses a generation exactly when another period claims one of its sources, a
      fixed-class agreement is not in force on its class's completion day, or an hourly session
      earns less than half a dong; every other row it writes is accepted. */
  lemma RefusedExactly(src: Sources, p: Dates, claims: Claims)
    requires Tables(src) && !TooShort(src, p)
    ensures RowsRefused(src, p, claims) <==>
            || (exists w | w in src.sessions && Payable(p, w) :: SessionRefused(src, p, claims, w))
            || (exists a | a in src.agreements :: FixedRefused(src, p, claims, a))
            || (exists w | w in src.sessions && Payable(p, w) :: UnpaidClaimed(src, p, claims, w))
  {
    SessionItemsFrom(src, p);
    FixedItemsFrom(src, p, src.agreements);
    forall w | w in src.sessions && Payable(p, w) && PaidItem(src, p)(w).Some?
      ensures PaidItem(src, p)(w).value in Generated(src, p)
      ensures ItemRefused(src, claims, PaidItem(src, p)(w).value) <==> SessionRefused(src, p, claims, w)
    {
      assert PaidItem(src, p)(w).value in SessionItems(src, p);
      SessionRefusedExactly(src, p, claims, w);
    }
    forall a | a in src.agreements && FixedDue(src, p, a)
      ensures FixedFor(src, a) in Generated(src, p)
      ensures ItemRefused(src, claims, FixedFor(src, a)) <==> FixedRefused(src, p, claims, a)
    {
      assert FixedFor(src, a) in FixedItems(src, p, src.agreements);
      FixedItemAccepted(src, p, a);
    }
    forall w | w in src.sessions && Payable(p, w) && UnpaidRow(src, p)(w).Some?
      ensures UnpaidRow(src, p)(w).value in UnresolvedRows(src, p)
      ensures UnpaidRefused(src, p, claims, UnpaidRow(src, p)(w).value) <==> UnpaidClaimed(src, p, claims, w)
    {
      UnpaidRowAccepted(src, p, w);
    }
  }

  /** A generated period passes the canonical recheck on unchanged sources if and only if every
      paid session's times are aligned: nothing else can differ. */
  lemma GeneratedIsCanonical(p: Period, src: Sources, claims: Claims, q: Period)
    requires Tables(src) && Balanced(p) && Generate(p, src, claims).Done?
    requires q.items == Generate(p, src, claims).period.items
             && q.unresolved == Generate(p, src, claims).period.unresolved
    requires q.dates == p.dates
    ensures Canonical(q, src) <==> AllAligned(src, p.dates)
  {
    FilledBalanced(p, Generated(src, p.dates), UnresolvedRows(src, p.dates));
    GeneratedSplit(src, p.dates, q.items);
    var worked, fixed := Filter(q.items, (x: Item) => x.SessionItem?), Filter(q.items, (x: Item) => x.FixedItem?);
    MapMultiset(worked, SessionItems(src, p.dates), AsCompared());
    MapMultiset(fixed, FixedItems(src, p.dates, src.agreements), AsCompared());
    SessionsCanonical(src, p.dates);
    SameUnresolved(src, p.dates);
    FixedCanonical(src, p.dates);
    InsertedCovers(src, p.dates, claims);
  }

  /** The services accept session times only as hours and minutes: then a generated period always
      passes the recheck on unchanged sources. */
  lemma WholeMinutesCanonical(p: Period, src: Sources, claims: Claims)
    requires Tables(src) && Balanced(p) && Generate(p, src, claims).Done?
    requires forall w | w in src.sessions :: WholeMinutes(w)
    ensures Canonical(Generate(p, src, claims).period, src)
  {
    WholeIsAligned(src, p.dates);
    GeneratedIsCanonical(p, src, claims, Generate(p, src, claims).period);
  }

  /** From generation to finalization on unchanged sources, whatever adjustments come between:
      finalizing succeeds if and only if nothing is unresolved, the times are aligned and no
      teacher's total is negative. */
  lemma FinalizesExactly(p: Period, src: Sources, claims: Claims, q: Period)
    requires Tables(src) && Balanced(p) && Generate(p, src, claims).Done?
    requires var g := Generate(p, src, claims).period;
             q == g.(adjustments := q.adjustments, statements := q.statements)
    ensures Finalize(q, src).Done? <==>
            UnresolvedRows(src, p.dates) == [] && AllAligned(src, p.dates) && !AnyNegative(q.statements)
  {
    GeneratedIsCanonical(p, src, claims, q);
  }
}
