/** Teacher compensation: what generation pays for, and what the recheck before finalization
    expects, computed two ways. */
module Compensation {
  import opened Collections
  import opened Ordering

  type Id = nat
  type Rate = n: int | 0 < n witness 1

  datatype Basis = PerSession | PerHour | FixedClass

  /** Dates are day numbers, times seconds of the day. */
  datatype Agreement = Agreement(id: Id, teacher: Id, class_: Option<Id>, basis: Basis, rate: Rate, from: int,
                                 until: Option<int>)
  datatype Session = Session(id: Id, teacher: Option<Id>, class_: Id, date: int, start: nat, end: nat, completed: bool)
  datatype Sources = Sources(sessions: seq<Session>, agreements: seq<Agreement>, completedOn: map<Id, int>)
  datatype Dates = Dates(start: int, end: int)

  datatype Item =
    | SessionItem(session: Id, teacher: Id, class_: Id, agreement: Id, basis: Basis, rate: int, minutes: int,
                  amount: int, date: int, start: nat, end: nat)
    | FixedItem(agreement: Id, teacher: Id, class_: Id, rate: int, amount: int, date: int)
  datatype Reason = MissingTeacher | MissingAgreement
  datatype Unresolved = Unresolved(session: Id, teacher: Option<Id>, class_: Id, date: int, reason: Reason)

  /** What the database guarantees of the tables: primary keys, and sessions that end after they start. */
  ghost predicate Tables(src: Sources) {
    && (forall i, j | 0 <= i < j < |src.sessions| :: src.sessions[i].id != src.sessions[j].id)
    && (forall i, j | 0 <= i < j < |src.agreements| :: src.agreements[i].id != src.agreements[j].id)
    && (forall w | w in src.sessions :: w.start < w.end)
  }

  // ---------- arithmetic ----------

  /** calculateAmount, in whole dong, rounded half up. */
  function Amount(rate: int, basis: Basis, minutes: int): int {
    if basis == PerHour then (rate * minutes + 30) / 60 else rate
  }

  /** durationMinutes: the seconds of each time are cut off before subtracting. */
  function CutMinutes(w: Session): int {
    w.end / 60 - w.start / 60
  }

  /** The SQL recheck: the exact duration, rounded to whole minutes. */
  function RoundedMinutes(w: Session): int {
    (w.end as int - w.start as int + 30) / 60
  }

  // ---------- which agreement ----------

  predicate Applies(a: Agreement, w: Session) {
    && w.teacher == Some(a.teacher) && (a.class_ == Some(w.class_) || a.class_.None?)
    && a.from <= w.date && (a.until.Some? ==> w.date <= a.until.value)
  }

  function Applicable(w: Session): Agreement -> bool {
    (a: Agreement) => Applies(a, w)
  }

  function Overlapping(p: Dates): Agreement -> bool {
    (a: Agreement) => a.from <= p.end && (a.until.Some? ==> p.start <= a.until.value)
  }

  predicate Later(a: Agreement, b: Agreement) {
    a.from > b.from || (a.from == b.from && a.id > b.id)
  }

  /** ORDER BY teacher_id, class_id NULLS LAST, effective_from DESC, id DESC */
  predicate ListOrder(a: Agreement, b: Agreement) {
    if a.teacher != b.teacher then a.teacher < b.teacher
    else if a.class_ != b.class_ then a.class_.Some? && (b.class_.None? || a.class_.value < b.class_.value)
    else Later(a, b)
  }

  /** ORDER BY (class_id IS NULL), effective_from DESC, id DESC */
  predicate LateralOrder(a: Agreement, b: Agreement) {
    if a.class_.None? != b.class_.None? then a.class_.Some? else Later(a, b)
  }

  /** agreements.rows.find(..) over the sorted list */
  function AgreementFor(src: Sources, p: Dates, w: Session): Option<Agreement> {
    Find(Sort(Filter(src.agreements, Overlapping(p)), ListOrder), Applicable(w))
  }

  /** LEFT JOIN LATERAL (.. ORDER BY .. LIMIT 1) */
  function LateralAgreement(src: Sources, w: Session): Option<Agreement> {
    var s := Sort(Filter(src.agreements, Applicable(w)), LateralOrder);
    if |s| == 0 then None else Some(s[0])
  }

  // ---------- generation ----------

  predicate Payable(p: Dates, w: Session) {
    w.completed && p.start <= w.date <= p.end
  }

  function InPeriod(p: Dates): Session -> bool {
    (w: Session) => Payable(p, w)
  }

  predicate ByDate(x: Session, y: Session) {
    x.date < y.date || (x.date == y.date && x.id < y.id)
  }

  function Worked(src: Sources, p: Dates): seq<Session> {
    Sort(Filter(src.sessions, InPeriod(p)), ByDate)
  }

  function ItemFor(w: Session, a: Agreement, minutes: int): Item {
    SessionItem(w.id, a.teacher, w.class_, a.id, a.basis, a.rate, minutes, Amount(a.rate, a.basis, minutes), w.date,
                w.start, w.end)
  }

  function UnresolvedFor(w: Session): Unresolved {
    Unresolved(w.id, w.teacher, w.class_, w.date, if w.teacher.None? then MissingTeacher else MissingAgreement)
  }

  /** SQL's and the loop's way of building rows: one per session that has one, in order. */
  function Collect<T>(s: seq<Session>, f: Session -> Option<T>): seq<T> {
    if |s| == 0 then []
    else
      var x := f(s[|s| - 1]);
      Collect(s[..|s| - 1], f) + if x.Some? then [x.value] else []
  }

  function PaidItem(src: Sources, p: Dates): Session -> Option<Item> {
    (w: Session) =>
      var a := AgreementFor(src, p, w);
      if w.teacher.None? || a.None? || a.value.basis == FixedClass then None
        else Some(ItemFor(w, a.value, CutMinutes(w)))
  }

  function UnpaidRow(src: Sources, p: Dates): Session -> Option<Unresolved> {
    (w: Session) => if w.teacher.None? || AgreementFor(src, p, w).None? then Some(UnresolvedFor(w)) else None
  }

  function SessionItems(src: Sources, p: Dates): seq<Item> {
    Collect(Worked(src, p), PaidItem(src, p))
  }

  function UnresolvedRows(src: Sources, p: Dates): seq<Unresolved> {
    Collect(Worked(src, p), UnpaidRow(src, p))
  }

  /** Fixed-class agreements in force some day of the period whose class completed within it. */
  predicate FixedDue(src: Sources, p: Dates, a: Agreement) {
    && a.basis == FixedClass && Overlapping(p)(a) && a.class_.Some? && a.class_.value in src.completedOn
    && p.start <= src.completedOn[a.class_.value] <= p.end
  }

  function FixedFor(src: Sources, a: Agreement): Item
    requires a.class_.Some? && a.class_.value in src.completedOn
  {
    FixedItem(a.id, a.teacher, a.class_.value, a.rate, a.rate, src.completedOn[a.class_.value])
  }

  function FixedItems(src: Sources, p: Dates, agreements: seq<Agreement>): seq<Item> {
    if |agreements| == 0 then []
    else
      var n := |agreements| - 1;
      FixedItems(src, p, agreements[..n]) + if FixedDue(src, p, agreements[n]) then [FixedFor(src, agreements[n])]
        else []
  }

  function Generated(src: Sources, p: Dates): seq<Item> {
    SessionItems(src, p) + FixedItems(src, p, src.agreements)
  }

  // ---------- the recheck ----------

  function ExpectedItem(src: Sources): Session -> Option<Item> {
    (w: Session) =>
      var a := LateralAgreement(src, w);
      if w.teacher.None? || a.None? || a.value.basis == FixedClass then None
        else Some(ItemFor(w, a.value, RoundedMinutes(w)))
  }

  function ExpectedUnpaid(src: Sources): Session -> Option<Unresolved> {
    (w: Session) => if w.teacher.None? || LateralAgreement(src, w).None? then Some(UnresolvedFor(w)) else None
  }

  function ExpectedSessions(src: Sources, p: Dates): seq<Item> {
    Collect(Filter(src.sessions, InPeriod(p)), ExpectedItem(src))
  }

  function ExpectedUnresolved(src: Sources, p: Dates): seq<Unresolved> {
    Collect(Filter(src.sessions, InPeriod(p)), ExpectedUnpaid(src))
  }

  /** What the comparison sees of an item: times as hours and minutes; a fixed item without its amount. */
  function Compared(x: Item): Item {
    match x
    case SessionItem(_, _, _, _, _, _, _, _, _, start, end) => x.(start := start / 60, end := end / 60)
    case FixedItem(_, _, _, _, _, _) => x.(amount := 0)
  }

  function AsCompared(): Item -> Item { (x: Item) => Compared(x) }

  /** The agreement is in force on the day its class completed. */
  predicate Covers(src: Sources, a: Agreement) {
    && a.class_.Some? && a.class_.value in src.completedOn
    && a.from <= src.completedOn[a.class_.value] && (a.until.Some? ==> src.completedOn[a.class_.value] <= a.until.value)
  }

  /** What the recheck asks: completion within the period, on a day the agreement is in force. */
  predicate FixedExpected(src: Sources, p: Dates, a: Agreement) {
    a.basis == FixedClass && Covers(src, a) && p.start <= src.completedOn[a.class_.value] <= p.end
  }

  function ExpectedFixed(src: Sources, p: Dates, agreements: seq<Agreement>): seq<Item> {
    if |agreements| == 0 then []
    else
      var n := |agreements| - 1;
      ExpectedFixed(src, p, agreements[..n])
      + if FixedExpected(src, p, agreements[n]) then [FixedFor(src, agreements[n])] else []
  }
}
