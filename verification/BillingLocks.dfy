/** The explicit row locks of the billing commands, and why they never deadlock. */
module BillingLocks {
  import opened Collections
  import opened Ordering
  import opened Billing
  import opened BillingSafety
  import opened BillingRefunds
  import opened BillingRuns

  datatype SequenceKey = InvoiceNumbers | NoteNumbers

  /** A row taken with SELECT .. FOR UPDATE, or the sequence row an upsert locks. */
  datatype Lock =
    | PaymentRow(id: Id)
    | RefundRow(id: Id)
    | NoteRow(id: Id)
    | AllocationRow(at: int, id: Id)
    | InvoiceRow(id: Id)
    | EnrollmentRow(id: Id)
    | SequenceRow(key: SequenceKey)

  function Level(x: Lock): nat {
    match x
    case PaymentRow(_) => 0
    case RefundRow(_) => 1
    case NoteRow(_) => 2
    case AllocationRow(_, _) => 3
    case InvoiceRow(_) => 4
    case EnrollmentRow(_) => 5
    case SequenceRow(_) => 6
  }

  predicate SameLevelBefore(x: Lock, y: Lock)
    requires Level(x) == Level(y)
  {
    match x
    case AllocationRow(at, id) => at < y.at || (at == y.at && id < y.id)
    case SequenceRow(key) => key == InvoiceNumbers && y.key == NoteNumbers
    case _ => x.id < y.id
  }

  /** The order in which every command takes its locks. */
  predicate Before(x: Lock, y: Lock) {
    Level(x) < Level(y) || (Level(x) == Level(y) && SameLevelBefore(x, y))
  }

  lemma BeforeIsTotal(x: Lock, y: Lock)
    ensures x == y || Before(x, y) || Before(y, x)
    ensures !Before(x, x)
  {}

  lemma BeforeIsTransitive(x: Lock, y: Lock, z: Lock)
    requires Before(x, y) && Before(y, z)
    ensures Before(x, z)
  {}

  // ---------- what each command locks ----------

  function InvoiceLocks(l: Ledger, id: Id): seq<Lock> {
    if InvoiceById(l.invoices, id).Some? then [InvoiceRow(id)] else []
  }

  function AsInvoiceRow(): AllocationInput -> Lock { (x: AllocationInput) => InvoiceRow(x.invoice) }
  function AsAllocationRow(): Allocation -> Lock { (a: Allocation) => AllocationRow(a.at, a.id) }

  function IssuePlan(l: Ledger, id: Id): seq<Lock> {
    var x := InvoiceById(l.invoices, id);
    if x.None? then []
    else if x.value.status != Draft then [InvoiceRow(id)]
    else [InvoiceRow(id)]
         + (if x.value.enrollment.Some? then [EnrollmentRow(x.value.enrollment.value)] else [])
         + [SequenceRow(InvoiceNumbers)]
  }

  function BatchPlan(payment: Id, items: seq<AllocationInput>): seq<Lock> {
    [PaymentRow(payment)] + Map(items, AsInvoiceRow())
  }

  function AllocatePlan(l: Ledger, payment: Id, batch: seq<AllocationInput>, key: Key): seq<Lock> {
    if PaymentById(l.payments, payment).None? then []
    else if Reversed(l.reversals, payment) || |batch| == 0 || RepeatedInvoice(batch)
      || |KeyedRows(l, payment, key)| != 0
    then [PaymentRow(payment)]
    else BatchPlan(payment, LockOrder(batch))
  }

  function RefundPlan(l: Ledger, payment: Id): seq<Lock> {
    if PaymentById(l.payments, payment).None? then []
    else [PaymentRow(payment)] + Map(OldestFirst(l, payment), AsAllocationRow())
  }

  function IssueNotePlan(l: Ledger, note: Id): seq<Lock> {
    var n := NoteById(l.notes, note);
    if n.None? then []
    else if n.value.status != DraftNote then [NoteRow(note)]
    else [NoteRow(note)] + InvoiceLocks(l, n.value.invoice) + [SequenceRow(NoteNumbers)]
  }

  /** The locks a command requests, in order, at most: it may stop early by failing. */
  function LockPlan(l: Ledger, c: Command): seq<Lock> {
    match c
    case CreateInvoice(_, _, _, _, _, _, _) => []
    case IssueInvoice(id) => IssuePlan(l, id)
    case VoidInvoice(id) => InvoiceLocks(l, id)
    case RecordPayment(invoice, input) =>
      if PaymentByKey(l.payments, input.key).Some? then [] else InvoiceLocks(l, invoice)
    case RecordUnallocated(_) => []
    case AllocatePayment(payment, batch, key) => AllocatePlan(l, payment, batch, key)
    case ReversePayment(payment, _, _) => if PaymentById(l.payments, payment).Some? then [PaymentRow(payment)] else []
    case RefundPayment(payment, _, _, _) => RefundPlan(l, payment)
    case CreateCreditNote(invoice, _, _, key) =>
      var n := NoteByKey(l.notes, key);
      if n.Some? then [NoteRow(n.value.id)] else InvoiceLocks(l, invoice)
    case IssueCreditNote(note) => IssueNotePlan(l, note)
    case VoidCreditNote(note, _, _) => if NoteById(l.notes, note).Some? then [NoteRow(note)] else []
  }

  lemma BatchIncreasing(batch: seq<AllocationInput>)
    requires !RepeatedInvoice(batch)
    ensures Increasing(Map(LockOrder(batch), AsInvoiceRow()), Before)
  {
    forall x, y | x in batch && y in batch && x != y ensures ByInvoice(x, y) || ByInvoice(y, x) {
      var i :| 0 <= i < |batch| && batch[i] == x;
      var j :| 0 <= j < |batch| && batch[j] == y;
      assert i < j || j < i;
    }
    SortIncreasing(batch, ByInvoice);
    var r := LockOrder(batch);
    forall i, j | 0 <= i < j < |r| ensures Before(InvoiceRow(r[i].invoice), InvoiceRow(r[j].invoice)) {
      assert ByInvoice(r[i], r[j]);
    }
  }

  lemma RefundIncreasing(l: Ledger, payment: Id)
    requires UniqueAllocations(l.allocations)
    ensures Increasing(Map(OldestFirst(l, payment), AsAllocationRow()), Before)
  {
    var s := AllocationsOf(l, payment);
    FilterMembers(l.allocations, (a: Allocation) => a.payment == payment);
    FilterDistinct(l.allocations, (a: Allocation) => a.payment == payment);
    forall x, y | x in s && y in s && x != y ensures Older(x, y) || Older(y, x) { AllocationFound(l.allocations, x); }
    SortIncreasing(s, Older);
    var r := OldestFirst(l, payment);
    forall i, j | 0 <= i < j < |r| ensures Before(AllocationRow(r[i].at, r[i].id), AllocationRow(r[j].at, r[j].id)) {
      assert Older(r[i], r[j]);
    }
  }

  lemma IncreasingCons(x: Lock, s: seq<Lock>)
    requires Increasing(s, Before) && forall y | y in s :: Before(x, y)
    ensures Increasing([x] + s, Before)
  {}

  /** Every command takes payment or credit note rows, then allocation rows, then invoices by id,
      then the enrollment and the sequence row: one strictly increasing list. */
  lemma PlanIncreasing(l: Ledger, c: Command)
    requires UniqueAllocations(l.allocations)
    ensures Increasing(LockPlan(l, c), Before)
  {
    match c
    case AllocatePayment(payment, batch, key) =>
      if !RepeatedInvoice(batch) {
        BatchIncreasing(batch);
        IncreasingCons(PaymentRow(payment), Map(LockOrder(batch), AsInvoiceRow()));
      }
    case RefundPayment(payment, _, _, _) =>
      RefundIncreasing(l, payment);
      IncreasingCons(PaymentRow(payment), Map(OldestFirst(l, payment), AsAllocationRow()));
    case _ =>
  }

  // ---------- the locks the insert triggers take ----------

  /** The rows that validate_payment_allocation and validate_refund_allocation_balance lock again
      when a row is inserted. */
  function TriggerLocks(l: Ledger, e: Effect): seq<Lock> {
    match e
    case AddAllocation(x) => [PaymentRow(x.payment), InvoiceRow(x.invoice)]
    case AddSplit(x) =>
      var a := AllocationById(l.allocations, x.allocation);
      [RefundRow(x.refund)] + if a.Some? then [AllocationRow(a.value.at, a.value.id)] else []
    case _ => []
  }

  /** How many locks of its plan a command holds when it writes its k-th row: a batch locks each
      invoice just before it writes that invoice's allocation, the others lock first. */
  function HeldBefore(l: Ledger, c: Command, k: nat): nat {
    if c.AllocatePayment? && k + 2 <= |LockPlan(l, c)| then k + 2 else |LockPlan(l, c)|
  }

  /** A row that these effects have inserted: no other transaction can see it before the commit. */
  predicate Own(es: seq<Effect>, x: Lock) {
    || (x.PaymentRow? && exists e | e in es :: e.AddPayment? && e.payment.id == x.id)
    || (x.RefundRow? && exists e | e in es :: e.AddRefund? && e.refund.id == x.id)
  }

  lemma {:induction false} BatchEffectAt(env: Env, payment: Id, key: Key, items: seq<AllocationInput>, n: nat)
    requires n <= |items|
    ensures var es := BatchEffects(env, payment, key, items, n);
            |es| == n && forall k | 0 <= k < n :: es[k] == AddAllocation(BatchRow(env, payment, key, items[k], k))
  {
    if n != 0 { BatchEffectAt(env, payment, key, items, n - 1); }
  }

  lemma {:induction false} SplitFromOldest(l: Ledger, env: Env, refund: Id, oldest: seq<Allocation>, amount: int,
                                           n: nat)
    requires n <= |oldest|
    ensures forall e | e in Splits(l, env, refund, oldest, amount, n) ::
              e.AddSplit? && e.split.refund == refund && exists j | 0 <= j < n :: oldest[j].id == e.split.allocation
  {
    if n != 0 { SplitFromOldest(l, env, refund, oldest, amount, n - 1); }
  }

  lemma BatchTriggersHeld(l: Ledger, env: Env, c: Command, k: nat, x: Lock)
    requires c.AllocatePayment? && Decide(l, env, c).Accept? && k < |Decide(l, env, c).effects|
    requires x in TriggerLocks(l, Decide(l, env, c).effects[k])
    ensures x in LockPlan(l, c)[..HeldBefore(l, c, k)]
  {
    var items := LockOrder(c.batch);
    BatchEffectAt(env, c.payment, c.key, items, |items|);
    assert |KeyedRows(l, c.payment, c.key)| == 0;
    assert LockPlan(l, c) == BatchPlan(c.payment, items);
    HeldByThen(c.payment, items, k, x);
  }

  lemma HeldByThen(payment: Id, items: seq<AllocationInput>, k: nat, x: Lock)
    requires k < |items| && x in [PaymentRow(payment), InvoiceRow(items[k].invoice)]
    ensures k + 2 <= |BatchPlan(payment, items)| && x in BatchPlan(payment, items)[..k + 2]
  {
    var held := BatchPlan(payment, items)[..k + 2];
    assert held[0] == PaymentRow(payment) && held[k + 1] == InvoiceRow(items[k].invoice);
  }

  lemma RefundTriggersHeld(l: Ledger, env: Env, c: Command, k: nat, x: Lock)
    requires UniqueAllocations(l.allocations) && c.RefundPayment?
    requires Decide(l, env, c).Accept? && k < |Decide(l, env, c).effects|
    requires x in TriggerLocks(l, Decide(l, env, c).effects[k])
    ensures x in LockPlan(l, c) || Own(Decide(l, env, c).effects[..k], x)
  {
    var es, oldest := Decide(l, env, c).effects, OldestFirst(l, c.payment);
    SplitFromOldest(l, env, env.ulid(0), oldest, c.amount, |oldest|);
    assert es[0].AddRefund? && k > 0 && es[k] in es[1..];
    if x.RefundRow? {
      assert es[..k][0] == es[0];
    } else {
      var j :| 0 <= j < |oldest| && oldest[j].id == es[k].split.allocation;
      OldestMembers(l, c.payment);
      assert oldest[j] in oldest;
      AllocationFound(l.allocations, oldest[j]);
      var rows := Map(oldest, AsAllocationRow());
      assert rows[j] == x && x in rows;
    }
  }

  /** The triggers only lock rows the command already holds or has itself just inserted, so they
      never wait, and the plan is all that matters. */
  lemma TriggersNeverWait(l: Ledger, env: Env, c: Command, k: nat, x: Lock)
    requires UniqueAllocations(l.allocations)
    requires Decide(l, env, c).Accept? && k < |Decide(l, env, c).effects|
    requires x in TriggerLocks(l, Decide(l, env, c).effects[k])
    ensures x in LockPlan(l, c)[..HeldBefore(l, c, k)] || Own(Decide(l, env, c).effects[..k], x)
  {
    match c
    case AllocatePayment(_, _, _) => BatchTriggersHeld(l, env, c, k, x);
    case RefundPayment(_, _, _, _) => RefundTriggersHeld(l, env, c, k, x);
    case RecordPayment(invoice, _) =>
      var es := Decide(l, env, c).effects;
      assert k == 1 && LockPlan(l, c) == [InvoiceRow(invoice)];
      if x.PaymentRow? {
        assert es[0] in es[..1] && es[0].payment.id == x.id;
      } else {
        assert LockPlan(l, c)[..1][0] == x;
      }
    case _ =>
  }

  // ---------- what is locked ----------

  /** The rows that a written row changes, or whose balance it counts on. */
  ghost predicate Counted(l: Ledger, e: Effect, x: Lock) {
    match e
    case SetStatus(id, status, _) =>
      || x == InvoiceRow(id)
      || (status == Issued && (x == SequenceRow(InvoiceNumbers)
                               || exists inv | inv in l.invoices && inv.id == id && inv.enrollment.Some? ::
                                    x == EnrollmentRow(inv.enrollment.value)))
    case AddAllocation(a) => x == InvoiceRow(a.invoice)
    case AddReversal(r) => x == PaymentRow(r.payment)
    case AddRefund(r) =>
      || x == PaymentRow(r.payment)
      || exists a | a in l.allocations && a.payment == r.payment :: x == AllocationRow(a.at, a.id)
    case AddNote(n) => x == InvoiceRow(n.invoice)
    case IssueNote(id, _) =>
      || x == NoteRow(id) || x == SequenceRow(NoteNumbers)
      || exists n | n in l.notes && n.id == id :: x == InvoiceRow(n.invoice)
    case AddVoid(v) => x == NoteRow(v.note)
    case _ => false
  }

  /** Whatever an accepted command changes or counts on, it has locked: the invoice it issues, voids, pays
      or credits, the payment it reverses or refunds with all its allocations, the note it issues or
      voids, the number sequence it draws from. */
  lemma CountedIsLocked(l: Ledger, env: Env, c: Command, e: Effect, x: Lock)
    requires UniqueInvoices(l.invoices) && UniqueNotes(l.notes)
    requires Decide(l, env, c).Accept? && e in Decide(l, env, c).effects && Counted(l, e, x)
    ensures x in LockPlan(l, c)
  {
    match c
    case AllocatePayment(payment, batch, key) => BatchIsLocked(l, env, c, e, x);
    case RefundPayment(payment, amount, _, _) => RefundIsLocked(l, env, c, e, x);
    case IssueInvoice(id) =>
      forall inv | inv in l.invoices && inv.id == id ensures InvoiceById(l.invoices, id) == Some(inv) {
        InvoiceFound(l.invoices, inv);
      }
    case IssueCreditNote(note) =>
      forall n | n in l.notes && n.id == note ensures NoteById(l.notes, note) == Some(n) { NoteFound(l.notes, n); }
    case _ =>
  }

  lemma BatchIsLocked(l: Ledger, env: Env, c: Command, e: Effect, x: Lock)
    requires c.AllocatePayment? && Decide(l, env, c).Accept? && e in Decide(l, env, c).effects && Counted(l, e, x)
    ensures x in LockPlan(l, c)
  {
    var items := LockOrder(c.batch);
    BatchEffectAt(env, c.payment, c.key, items, |items|);
    var k :| 0 <= k < |items| && e == AddAllocation(BatchRow(env, c.payment, c.key, items[k], k));
    assert LockPlan(l, c) == BatchPlan(c.payment, items);
    HeldByThen(c.payment, items, k, x);
  }

  lemma RefundIsLocked(l: Ledger, env: Env, c: Command, e: Effect, x: Lock)
    requires c.RefundPayment? && Decide(l, env, c).Accept? && e in Decide(l, env, c).effects && Counted(l, e, x)
    ensures x in LockPlan(l, c)
  {
    SplitReferences(l, env, env.ulid(0), OldestFirst(l, c.payment), c.amount, |OldestFirst(l, c.payment)|);
    assert e.AddRefund? && e.refund.payment == c.payment;
    assert LockPlan(l, c)[0] == PaymentRow(c.payment);
    OldestMembers(l, c.payment);
    forall a | a in l.allocations && a.payment == c.payment ensures AllocationRow(a.at, a.id) in LockPlan(l, c) {
      var k :| 0 <= k < |OldestFirst(l, c.payment)| && OldestFirst(l, c.payment)[k] == a;
      assert LockPlan(l, c)[k + 1] == AllocationRow(a.at, a.id);
    }
  }

  // ---------- transactions interleaved lock by lock ----------

  /** A transaction: the locks it asks for, how many it was granted, whether it still runs. */
  datatype Txn = Txn(plan: seq<Lock>, granted: nat, running: bool)

  predicate Holds(t: Txn, x: Lock) {
    t.running && exists k | 0 <= k < t.granted && k < |t.plan| :: t.plan[k] == x
  }

  predicate Asking(t: Txn) {
    t.running && t.granted < |t.plan|
  }

  function Next(t: Txn): Lock
    requires Asking(t)
  {
    t.plan[t.granted]
  }

  predicate Free(s: seq<Txn>, i: nat, x: Lock) {
    forall j | 0 <= j < |s| && j != i :: !Holds(s[j], x)
  }

  datatype Action = Acquire(i: nat) | Finish(i: nat)

  predicate Enabled(s: seq<Txn>, a: Action) {
    match a
    case Acquire(i) => i < |s| && Asking(s[i]) && Free(s, i, Next(s[i]))
    case Finish(i) => i < |s| && s[i].running
  }

  function Perform(s: seq<Txn>, a: Action): seq<Txn>
    requires Enabled(s, a)
  {
    match a
    case Acquire(i) => s[i := s[i].(granted := s[i].granted + 1)]
    case Finish(i) => s[i := s[i].(running := false)]
  }

  ghost predicate Ordered(s: seq<Txn>) {
    forall i | 0 <= i < |s| :: Increasing(s[i].plan, Before)
  }

  /** No row is locked twice. */
  ghost predicate Exclusive(s: seq<Txn>) {
    forall i, j, x: Lock | 0 <= i < j < |s| :: !(Holds(s[i], x) && Holds(s[j], x))
  }

  lemma PerformKeeps(s: seq<Txn>, a: Action)
    requires Ordered(s) && Exclusive(s) && Enabled(s, a)
    ensures Ordered(Perform(s, a)) && Exclusive(Perform(s, a))
  {
    var s' := Perform(s, a);
    forall i, j, x: Lock | 0 <= i < j < |s| ensures !(Holds(s'[i], x) && Holds(s'[j], x)) {
      assert Holds(s'[i], x) ==> Holds(s[i], x) || (a == Acquire(i) && x == Next(s[i]));
      assert Holds(s'[j], x) ==> Holds(s[j], x) || (a == Acquire(j) && x == Next(s[j]));
    }
  }

  /** i waits for j: j holds the lock i asks for. */
  predicate Waits(s: seq<Txn>, i: nat, j: nat) {
    i < |s| && j < |s| && i != j && Asking(s[i]) && Holds(s[j], Next(s[i]))
  }

  lemma WaitingRises(s: seq<Txn>, i: nat, j: nat)
    requires Ordered(s) && Waits(s, i, j) && Asking(s[j])
    ensures Before(Next(s[i]), Next(s[j]))
  {}

  ghost predicate WaitPath(s: seq<Txn>, p: seq<nat>) {
    forall k | 0 <= k < |p| - 1 :: Waits(s, p[k], p[k + 1])
  }

  lemma {:induction false} PathRises(s: seq<Txn>, p: seq<nat>, k: nat)
    requires Ordered(s) && WaitPath(s, p)
    requires 0 < k < |p| && p[k] < |s| && Asking(s[p[k]])
    ensures Waits(s, p[0], p[1]) && Before(Next(s[p[0]]), Next(s[p[k]]))
  {
    assert Waits(s, p[k - 1], p[k]);
    WaitingRises(s, p[k - 1], p[k]);
    if k > 1 {
      PathRises(s, p, k - 1);
      BeforeIsTransitive(Next(s[p[0]]), Next(s[p[k - 1]]), Next(s[p[k]]));
    }
  }

  /** The wait-for graph has no cycle. */
  lemma NoCycle(s: seq<Txn>, p: seq<nat>)
    requires Ordered(s) && WaitPath(s, p) && |p| >= 2
    ensures p[0] != p[|p| - 1]
  {
    assert Waits(s, p[0], p[1]);
    if p[0] == p[|p| - 1] {
      PathRises(s, p, |p| - 1);
      BeforeIsTotal(Next(s[p[0]]), Next(s[p[0]]));
    }
  }

  lemma {:induction false} HighestAsking(s: seq<Txn>, n: nat) returns (m: nat)
    requires n <= |s| && exists i | 0 <= i < n :: Asking(s[i])
    ensures m < n && Asking(s[m])
    ensures forall i | 0 <= i < n && Asking(s[i]) :: !Before(Next(s[m]), Next(s[i]))
  {
    if exists i | 0 <= i < n - 1 :: Asking(s[i]) {
      m := HighestAsking(s, n - 1);
      if Asking(s[n - 1]) && Before(Next(s[m]), Next(s[n - 1])) {
        forall i | 0 <= i < n - 1 && Asking(s[i]) ensures !Before(Next(s[n - 1]), Next(s[i])) {
          if Before(Next(s[n - 1]), Next(s[i])) {
            BeforeIsTransitive(Next(s[m]), Next(s[n - 1]), Next(s[i]));
          }
        }
        m := n - 1;
        BeforeIsTotal(Next(s[m]), Next(s[m]));
      }
    } else {
      m := n - 1;
      BeforeIsTotal(Next(s[m]), Next(s[m]));
    }
  }

  /** Some running transaction can always proceed: it has all its locks, or gets the next. */
  lemma Progress(s: seq<Txn>)
    requires Ordered(s) && exists i | 0 <= i < |s| :: s[i].running
    ensures exists i: nat | i < |s| :: s[i].running && (!Asking(s[i]) || Enabled(s, Acquire(i)))
  {
    if forall i | 0 <= i < |s| && s[i].running :: Asking(s[i]) {
      var m := HighestAsking(s, |s|);
      forall j | 0 <= j < |s| && j != m ensures !Holds(s[j], Next(s[m])) {
        if Holds(s[j], Next(s[m])) { WaitingRises(s, m, j); }
      }
      assert Enabled(s, Acquire(m));
    } else {
      var i: nat :| i < |s| && s[i].running && !Asking(s[i]);
    }
  }

  // ---------- billing transactions ----------

  datatype Job = Job(ledger: Ledger, command: Command)

  function Start(jobs: seq<Job>): seq<Txn> {
    seq(|jobs|, i requires 0 <= i < |jobs| => Txn(LockPlan(jobs[i].ledger, jobs[i].command), 0, true))
  }

  ghost predicate Reaches(s: seq<Txn>, actions: seq<Action>, t: seq<Txn>)
    decreases |actions|
  {
    if |actions| == 0 then s == t
    else Enabled(s, actions[0]) && Reaches(Perform(s, actions[0]), actions[1..], t)
  }

  lemma {:induction false} ReachedOrdered(s: seq<Txn>, actions: seq<Action>, t: seq<Txn>)
    requires Ordered(s) && Exclusive(s) && Reaches(s, actions, t)
    ensures Ordered(t) && Exclusive(t)
    decreases |actions|
  {
    if |actions| != 0 {
      PerformKeeps(s, actions[0]);
      ReachedOrdered(Perform(s, actions[0]), actions[1..], t);
    }
  }

  /** Deadlock freedom: however any number of billing commands interleave, lock by lock, no row
      is locked twice, no cycle of waits arises, and while some transaction runs one can proceed. */
  lemma BillingNeverDeadlocks(jobs: seq<Job>, actions: seq<Action>, s: seq<Txn>)
    requires forall i | 0 <= i < |jobs| :: UniqueAllocations(jobs[i].ledger.allocations)
    requires Reaches(Start(jobs), actions, s)
    ensures Exclusive(s)
    ensures forall p | WaitPath(s, p) && |p| >= 2 :: p[0] != p[|p| - 1]
    ensures (exists i | 0 <= i < |s| :: s[i].running)
            ==> exists i: nat | i < |s| :: s[i].running && (!Asking(s[i]) || Enabled(s, Acquire(i)))
  {
    var s0 := Start(jobs);
    forall i | 0 <= i < |s0| ensures Increasing(s0[i].plan, Before) {
      PlanIncreasing(jobs[i].ledger, jobs[i].command);
    }
    ReachedOrdered(s0, actions, s);
    forall p | WaitPath(s, p) && |p| >= 2 ensures p[0] != p[|p| - 1] { NoCycle(s, p); }
    if exists i | 0 <= i < |s| :: s[i].running { Progress(s); }
  }
}
