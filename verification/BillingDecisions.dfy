/** When each billing command is accepted and what it leaves in the tables, in terms of the rows. */
module BillingDecisions {
  import opened Collections
  import opened Ordering
  import opened Billing
  import opened BillingSafety
  import opened BillingRefunds
  import opened BillingRuns
  import opened BillingReplay

  // ---------- the figures ----------

  /** Paid is what live payments allocated less what refunds took back; credit is the issued notes
      that nobody voided. */
  lemma FiguresExactly(l: Ledger, invoice: Id)
    requires UniqueIds(l) && SplitsLinked(l)
    ensures Paid(l, invoice)
            == Sum(l.allocations, (a: Allocation) =>
                 if a.invoice == invoice && forall r | r in l.reversals :: r.payment != a.payment
                 then a.amount - Sum(l.refundAllocations, (s: RefundAllocation) =>
                                       if s.allocation == a.id then s.amount else 0)
                 else 0)
    ensures Credit(l, invoice)
            == Sum(l.notes, (n: CreditNote) =>
                 if n.invoice == invoice && n.status == IssuedNote && forall v | v in l.voids :: v.note != n.id
                 then n.amount else 0)
  {
    PaidIsNet(l, invoice);
    var net := (a: Allocation) =>
      if a.invoice == invoice && forall r | r in l.reversals :: r.payment != a.payment
      then a.amount - Sum(l.refundAllocations, (s: RefundAllocation) => if s.allocation == a.id then s.amount else 0)
      else 0;
    forall a | a in l.allocations ensures NetTerm(l.refundAllocations, l.reversals, invoice)(a) == net(a) {
      SumSame(l.refundAllocations, TakenTerm(a.id), (s: RefundAllocation) =>
                if s.allocation == a.id then s.amount else 0);
    }
    SumSame(l.allocations, NetTerm(l.refundAllocations, l.reversals, invoice), net);
    SumSame(l.notes, CreditTerm(l.voids, invoice), (n: CreditNote) =>
              if n.invoice == invoice && n.status == IssuedNote && forall v | v in l.voids :: v.note != n.id
              then n.amount else 0);
  }

  /** How an invoice of a safe ledger reads: void, paid, partly paid, overdue, or as its status says. */
  lemma ReadingExactly(l: Ledger, x: Invoice, now: int)
    requires Safe(l) && x in l.invoices
    ensures var b := Live(l, x, now);
            && b.paid == Paid(l, x.id) && b.credit == Credit(l, x.id)
            && (b.effective == As(Voided) <==> x.status == Voided)
            && (b.effective == PaidUp <==> x.status != Voided && b.outstanding == 0)
            && (b.effective == PartlyPaid <==> x.status != Voided && 0 < b.outstanding && 0 < b.paid)
            && (b.effective == Overdue
                <==> x.status == Issued && 0 < b.outstanding && b.paid == 0 && x.due.Some? && x.due.value < now)
            && (b.effective == As(Issued)
                <==> x.status == Issued && 0 < b.outstanding && b.paid == 0
                     && (x.due.None? || now <= x.due.value))
  {
    PaidNonNegative(l, x.id);
    assert Settled(l, x);
  }

  // ---------- creating and issuing invoices ----------

  /** An invoice is created exactly for a known student, with enrollments that are the student's own,
      no more than one of enrollment and plan, something to charge, and discounts that are within
      their maxima and together within the subtotal. */
  lemma InvoiceCreatedExactly(l: Ledger, env: Env, c: Command)
    requires c.CreateInvoice?
    ensures Decide(l, env, c).Accept?
            <==> && c.student in env.students && (c.enrollment.None? || c.plan.None?)
                 && (c.enrollment.Some? ==>
                       c.enrollment.value in env.enrollments && env.enrollments[c.enrollment.value] == c.student)
                 && (c.plan.Some? ==> c.plan.value in env.plans)
                 && (forall x | x in c.items && x.enrollment.Some? ::
                       x.enrollment.value in env.enrollments && env.enrollments[x.enrollment.value] == c.student)
                 && (c.items == [] ==> c.plan.Some? || (c.enrollment.Some? && c.enrollment.value in env.prices))
                 && (forall d | d in c.discounts && d.max.Some? :: d.amount <= d.max.value)
                 && c.discount + Sum(c.discounts, (d: AppliedDiscount) => d.amount) <= Charged(env, c)
    ensures Decide(l, env, c) == Reject(NotFound)
            <==> (c.enrollment.None? || c.plan.None?) && c.student !in env.students
    ensures Decide(l, env, c) == Reject(Conflict) ==>
              exists d | d in c.discounts :: d.max.Some? && d.max.value < d.amount
    ensures Decide(l, env, c).Accept? ==>
              Step(l, env, c)
              == l.(invoices := l.invoices
                      + [Invoice(env.ulid(0), c.student, c.enrollment,
                                 Charged(env, c) - c.discount - Sum(c.discounts, (d: AppliedDiscount) => d.amount),
                                 c.due, Draft, env.now)],
                    history := l.history + [StatusEntry(env.ulid(0), Draft, env.now)])
  {
    var items := Priced(env, c.items, c.enrollment, c.plan);
    SumSame(c.discounts, DiscountTotal(), (d: AppliedDiscount) => d.amount);
    SumSame(items, ItemTotal(), (x: InvoiceItem) => x.quantity * x.unit);
    if c.items == [] && |items| != 0 { OneTerm(items[0], ItemTotal()); }
    if Decide(l, env, c).Accept? { OneEffect(l, Decide(l, env, c).effects[0]); }
  }

  /** What the items come to; without items, the enrollment's price or else the plan's amount. */
  function Charged(env: Env, c: Command): int
    requires c.CreateInvoice?
  {
    if c.items != [] then Sum(c.items, (x: InvoiceItem) => x.quantity * x.unit)
    else if c.enrollment.Some? && c.enrollment.value in env.prices then env.prices[c.enrollment.value]
    else if c.plan.Some? && c.plan.value in env.plans then env.plans[c.plan.value]
    else 0
  }

  /** An invoice is issued exactly from a draft, and voided exactly when issued and unpaid. */
  lemma StatusMovesExactly(l: Ledger, env: Env, x: Invoice)
    requires UniqueInvoices(l.invoices) && x in l.invoices
    ensures Decide(l, env, IssueInvoice(x.id)).Accept? <==> x.status == Draft
    ensures Decide(l, env, VoidInvoice(x.id)).Accept? <==> x.status == Issued && Paid(l, x.id) <= 0
    ensures forall d | d in [Decide(l, env, IssueInvoice(x.id)), Decide(l, env, VoidInvoice(x.id))] && d.Reject? ::
              d.error == Conflict
    ensures x.status == Draft ==> Restated(l, Step(l, env, IssueInvoice(x.id)), env, x, Issued)
    ensures x.status == Issued && Paid(l, x.id) <= 0 ==> Restated(l, Step(l, env, VoidInvoice(x.id)), env, x, Voided)
  {
    InvoiceFound(l.invoices, x);
    StatusWritten(l, env, x, Issued);
    StatusWritten(l, env, x, Voided);
    OneEffect(l, SetStatus(x.id, Issued, env.now));
    OneEffect(l, SetStatus(x.id, Voided, env.now));
  }

  /** This invoice's status and one history row, and nothing else. */
  ghost predicate Restated(l: Ledger, l': Ledger, env: Env, x: Invoice, status: InvoiceStatus) {
    && l' == l.(invoices := l'.invoices, history := l.history + [StatusEntry(x.id, status, env.now)])
    && |l'.invoices| == |l.invoices|
    && forall k | 0 <= k < |l.invoices| ::
         l'.invoices[k] == if l.invoices[k] == x then x.(status := status) else l.invoices[k]
  }

  lemma StatusWritten(l: Ledger, env: Env, x: Invoice, status: InvoiceStatus)
    requires UniqueInvoices(l.invoices) && x in l.invoices
    ensures Restated(l, Apply(l, SetStatus(x.id, status, env.now)), env, x, status)
  {
    forall k | 0 <= k < |l.invoices|
      ensures WithStatus(x.id, status)(l.invoices[k])
              == if l.invoices[k] == x then x.(status := status) else l.invoices[k]
    {
      InvoiceFound(l.invoices, x);
      InvoiceFound(l.invoices, l.invoices[k]);
    }
  }

  // ---------- payments ----------

  /** A payment under a new key is recorded on an invoice exactly when that is issued, owes at least the
      amount and is its student's; it is allocated whole. */
  lemma PaymentRecordedExactly(l: Ledger, env: Env, inv: Invoice, input: PaymentInput)
    requires UniqueInvoices(l.invoices) && inv in l.invoices
    requires forall p | p in l.payments :: p.key != input.key
    ensures Decide(l, env, RecordPayment(inv.id, input)).Accept?
            <==> && inv.status == Issued && input.amount + Paid(l, inv.id) + Credit(l, inv.id) <= inv.total
                 && (input.student.Some? ==> input.student.value == inv.student) && inv.student in env.students
    ensures Decide(l, env, RecordPayment(inv.id, input)) == Reject(BadRequest)
            <==> inv.status == Issued && input.student.Some? && input.student.value != inv.student
    ensures Decide(l, env, RecordPayment(inv.id, input)) == Reject(NotFound)
            <==> && inv.status == Issued && input.amount + Paid(l, inv.id) + Credit(l, inv.id) <= inv.total
                 && (input.student.Some? ==> input.student.value == inv.student) && inv.student !in env.students
    ensures Decide(l, env, RecordPayment(inv.id, input)).Accept? ==>
              Step(l, env, RecordPayment(inv.id, input))
              == l.(payments := l.payments
                      + [Payment(env.ulid(0), Some(inv.id), Some(inv.student), input.amount, input.paidBy, input.key,
                                 env.now)],
                    allocations := l.allocations
                      + [Allocation(env.ulid(1), env.ulid(0), inv.id, input.amount, None, env.now)])
  {
    InvoiceFound(l.invoices, inv);
    var d := Decide(l, env, RecordPayment(inv.id, input));
    if d.Accept? {
      TwoEffects(l, d.effects[0], d.effects[1]);
      assert d.effects == [d.effects[0], d.effects[1]];
    }
  }

  /** After such a payment the invoice reads paid if that was all it owed, and partly paid otherwise. */
  lemma PaymentReads(l: Ledger, env: Env, inv: Invoice, input: PaymentInput, now: int)
    requires Safe(l) && Fresh(l, env) && inv in l.invoices
    requires forall p | p in l.payments :: p.key != input.key
    requires Decide(l, env, RecordPayment(inv.id, input)).Accept?
    ensures var l' := Step(l, env, RecordPayment(inv.id, input));
            var before, after := Live(l, inv, now), Live(l', inv, now);
            && after.paid == before.paid + input.amount && after.outstanding == before.outstanding - input.amount
            && after.effective == if input.amount == before.outstanding then PaidUp else PartlyPaid
  {
    PaymentRecordedExactly(l, env, inv, input);
    FreshPayment(l, env);
    PaidReads(l, Payment(env.ulid(0), Some(inv.id), Some(inv.student), input.amount, input.paidBy, input.key, env.now),
              Allocation(env.ulid(1), env.ulid(0), inv.id, input.amount, None, env.now), inv, now);
  }

  lemma FreshPayment(l: Ledger, env: Env)
    requires Fresh(l, env)
    ensures PaymentById(l.payments, env.ulid(0)).None?
  {}

  lemma PaidReads(l: Ledger, p: Payment, a: Allocation, inv: Invoice, now: int)
    requires Linked(l) && PaymentById(l.payments, p.id).None? && a.payment == p.id && a.invoice == inv.id
    requires 0 < a.amount && inv.status == Issued && a.amount + Paid(l, inv.id) + Credit(l, inv.id) <= inv.total
    ensures var l' := l.(payments := l.payments + [p], allocations := l.allocations + [a]);
            var before, after := Live(l, inv, now), Live(l', inv, now);
            && after.paid == before.paid + a.amount && after.outstanding == before.outstanding - a.amount
            && after.effective == if a.amount == before.outstanding then PaidUp else PartlyPaid
  {
    PaidNonNegative(l, inv.id);
    PaymentThenAllocation(l, p, a, inv.id);
    ReadsAfter(l, Apply(Apply(l, AddPayment(p)), AddAllocation(a)), inv, a.amount, now);
  }

  lemma ReadsAfter(l: Ledger, l': Ledger, inv: Invoice, amount: int, now: int)
    requires 0 < amount && 0 <= Paid(l, inv.id) && inv.status == Issued
    requires amount + Paid(l, inv.id) + Credit(l, inv.id) <= inv.total
    requires Paid(l', inv.id) == Paid(l, inv.id) + amount && Credit(l', inv.id) == Credit(l, inv.id)
    ensures var before, after := Live(l, inv, now), Live(l', inv, now);
            && after.paid == before.paid + amount && after.outstanding == before.outstanding - amount
            && after.effective == if amount == before.outstanding then PaidUp else PartlyPaid
  {}

  lemma PaymentThenAllocation(l: Ledger, p: Payment, a: Allocation, invoice: Id)
    requires SplitsLinked(l) && NotesLinked(l) && PaymentById(l.payments, p.id).None?
    requires a.payment == p.id && a.invoice == invoice
    ensures var l' := Apply(Apply(l, AddPayment(p)), AddAllocation(a));
            Paid(l', invoice) == Paid(l, invoice) + a.amount && Credit(l', invoice) == Credit(l, invoice)
  {
    var l1 := Apply(l, AddPayment(p));
    forall x | x in l1.refundAllocations ensures SplitLinked(l1, x) { assert SplitLinked(l, x); }
    PaidAfterAllocation(l1, a, invoice);
    assert !Reversed(l.reversals, p.id);
  }

  /** A payment under a new key is recorded unallocated exactly for no student or a known one. */
  lemma UnallocatedRecordedExactly(l: Ledger, env: Env, input: PaymentInput)
    requires forall p | p in l.payments :: p.key != input.key
    ensures Decide(l, env, RecordUnallocated(input)).Accept?
            <==> (input.student.None? || input.student.value in env.students)
    ensures var d := Decide(l, env, RecordUnallocated(input)); d.Reject? ==> d.error == NotFound
    ensures Decide(l, env, RecordUnallocated(input)).Accept? ==>
              Step(l, env, RecordUnallocated(input))
              == l.(payments := l.payments
                      + [Payment(env.ulid(0), None, input.student, input.amount, input.paidBy, input.key, env.now)])
  {
    var d := Decide(l, env, RecordUnallocated(input));
    if d.Accept? { OneEffect(l, d.effects[0]); }
  }

  /** Under the key of a payment, only a call with that payment's own details is answered. */
  lemma PaymentRepeatedExactly(l: Ledger, env: Env, p: Payment, invoice: Id, input: PaymentInput)
    requires PaymentByKey(l.payments, input.key) == Some(p)
    ensures Decide(l, env, RecordPayment(invoice, input))
            == if p.invoice == Some(invoice) && p.amount == input.amount && p.paidBy == input.paidBy
                  && (input.student.None? || input.student == p.student)
               then Accept(p.id, []) else Reject(Conflict)
    ensures Decide(l, env, RecordUnallocated(input))
            == if p.invoice == None && p.amount == input.amount && p.paidBy == input.paidBy
                  && (input.student.None? || input.student == p.student)
               then Accept(p.id, []) else Reject(Conflict)
  {}

  /** What is not there is not found. */
  lemma UnknownNotFound(l: Ledger, env: Env, id: Id, input: PaymentInput, batch: seq<AllocationInput>, amount: Vnd,
                        reason: string, key: Key)
    ensures (forall x | x in l.invoices :: x.id != id) ==>
              && Decide(l, env, IssueInvoice(id)) == Decide(l, env, VoidInvoice(id)) == Reject(NotFound)
              && ((forall p | p in l.payments :: p.key != input.key) ==>
                    Decide(l, env, RecordPayment(id, input)) == Reject(NotFound))
              && ((forall n | n in l.notes :: n.key != key) ==>
                    Decide(l, env, CreateCreditNote(id, amount, reason, key)) == Reject(NotFound))
    ensures (forall p | p in l.payments :: p.id != id) ==>
              Decide(l, env, AllocatePayment(id, batch, key)) == Decide(l, env, ReversePayment(id, reason, key))
              == Decide(l, env, RefundPayment(id, amount, reason, key)) == Reject(NotFound)
    ensures (forall n | n in l.notes :: n.id != id) ==>
              Decide(l, env, IssueCreditNote(id)) == Decide(l, env, VoidCreditNote(id, reason, key)) == Reject(NotFound)
  {}

  // ---------- allocation batches ----------

  ghost predicate OtherInvoices(items: seq<AllocationInput>) {
    forall i, j | 0 <= i < j < |items| :: items[i].invoice != items[j].invoice
  }

  lemma OtherItemUnmoved(l: Ledger, p: Payment, row: Allocation, x: AllocationInput)
    requires SplitsLinked(l) && row.invoice != x.invoice
    ensures var l' := Apply(l, AddAllocation(row)); SplitsLinked(l') && ItemError(l', p, x) == ItemError(l, p, x)
  {
    var l' := Apply(l, AddAllocation(row));
    AllocationsGrow(l.allocations, row);
    forall s | s in l.refundAllocations ensures SplitLinked(l', s) {
      assert SplitLinked(l, s);
      assert AllocationById(l'.allocations, s.allocation) == AllocationById(l.allocations, s.allocation);
    }
    PaidAfterAllocation(l, row, x.invoice);
    FindSnoc(l.allocations, row, (a: Allocation) => a.payment == p.id && a.invoice == x.invoice);
  }

  /** Over different invoices the items of a batch do not affect each other. */
  lemma {:induction false} BatchItemsAlone(l: Ledger, env: Env, p: Payment, key: Key, items: seq<AllocationInput>,
                                           k: nat)
    requires k <= |items| && SplitsLinked(l) && OtherInvoices(items)
    ensures BatchError(l, env, p, key, items, k).None?
            <==> forall j | k <= j < |items| :: ItemError(l, p, items[j]).None?
    decreases |items| - k
  {
    if k < |items| && ItemError(l, p, items[k]).None? {
      var row := BatchRow(env, p.id, key, items[k], k);
      forall j | k < j < |items|
        ensures ItemError(Apply(l, AddAllocation(row)), p, items[j]) == ItemError(l, p, items[j])
      {
        OtherItemUnmoved(l, p, row, items[j]);
      }
      RowKeepsSplits(l, row);
      BatchItemsAlone(Apply(l, AddAllocation(row)), env, p, key, items, k + 1);
    }
  }

  lemma RowKeepsSplits(l: Ledger, row: Allocation)
    requires SplitsLinked(l)
    ensures SplitsLinked(Apply(l, AddAllocation(row)))
  {
    OtherItemUnmoved(l, Payment(0, None, None, 1, 0, 0, 0), row, AllocationInput(row.invoice + 1, 1));
  }

  lemma LockOrderSorted(items: seq<AllocationInput>)
    requires OtherInvoices(items)
    ensures forall i, j | 0 <= i < j < |items| :: LockOrder(items)[i].invoice < LockOrder(items)[j].invoice
    ensures forall x :: x in LockOrder(items) <==> x in items
  {
    SortIncreasing(items, ByInvoice);
    SortMembers(items, ByInvoice);
  }

  /** The item's invoice is issued, the payment's student's, owes the amount, and has nothing from this
      payment yet. */
  ghost predicate ItemFits(l: Ledger, p: Payment, x: AllocationInput) {
    exists inv | inv in l.invoices && inv.id == x.invoice ::
      && inv.status == Issued && x.amount + Paid(l, inv.id) + Credit(l, inv.id) <= inv.total
      && (p.student.Some? ==> p.student.value == inv.student)
      && forall a | a in l.allocations :: !(a.payment == p.id && a.invoice == x.invoice)
  }

  lemma ItemPassesExactly(l: Ledger, p: Payment, x: AllocationInput)
    requires UniqueInvoices(l.invoices)
    ensures ItemError(l, p, x).None? <==> ItemFits(l, p, x)
  {
    forall inv | inv in l.invoices ensures InvoiceById(l.invoices, inv.id) == Some(inv) {
      InvoiceFound(l.invoices, inv);
    }
  }

  lemma BatchPassesExactly(l: Ledger, env: Env, p: Payment, items: seq<AllocationInput>, key: Key)
    requires SplitsLinked(l) && OtherInvoices(items)
    ensures BatchError(l, env, p, key, LockOrder(items), 0).None? <==> forall x | x in items :: ItemError(l, p, x).None?
  {
    var ordered := LockOrder(items);
    LockOrderSorted(items);
    BatchItemsAlone(l, env, p, key, ordered, 0);
    if forall j | 0 <= j < |ordered| :: ItemError(l, p, ordered[j]).None? {
      forall x | x in items ensures ItemError(l, p, x).None? { assert x in ordered; }
    }
    if forall x | x in items :: ItemError(l, p, x).None? {
      forall j | 0 <= j < |ordered| ensures ItemError(l, p, ordered[j]).None? { assert ordered[j] in ordered; }
    }
  }

  /** A batch under a new key is accepted exactly when the payment stands, the items name different
      invoices, together fit into what the payment has not allocated, and each of them passes on the
      ledger as it is before the batch: no item depends on the others, nor on the order. */
  lemma BatchAcceptedExactly(l: Ledger, env: Env, p: Payment, items: seq<AllocationInput>, key: Key)
    requires Linked(l) && p in l.payments
    requires forall a | a in l.allocations :: !(a.payment == p.id && a.key == Some(key))
    ensures Decide(l, env, AllocatePayment(p.id, items, key)).Accept?
            <==> && (forall r | r in l.reversals :: r.payment != p.id)
                 && items != [] && (forall i, j | 0 <= i < j < |items| :: items[i].invoice != items[j].invoice)
                 && Sum(l.allocations, (a: Allocation) => if a.payment == p.id then a.amount else 0)
                    + Sum(items, (x: AllocationInput) => x.amount) <= p.amount
                 && forall x | x in items :: ItemFits(l, p, x)
  {
    PaymentFound(l.payments, p);
    NoKeyedRows(l, p.id, key);
    SumSame(l.allocations, AllocatedTerm(p.id), (a: Allocation) => if a.payment == p.id then a.amount else 0);
    SumSame(items, InputAmount(), (x: AllocationInput) => x.amount);
    BatchDecided(l, env, p, items, key);
    if !RepeatedInvoice(items) {
      BatchPassesExactly(l, env, p, items, key);
      forall x | x in items ensures ItemError(l, p, x).None? <==> ItemFits(l, p, x) { ItemPassesExactly(l, p, x); }
    }
  }

  lemma BatchDecided(l: Ledger, env: Env, p: Payment, items: seq<AllocationInput>, key: Key)
    requires PaymentById(l.payments, p.id) == Some(p) && |KeyedRows(l, p.id, key)| == 0
    ensures Decide(l, env, AllocatePayment(p.id, items, key)).Accept?
            <==> && !Reversed(l.reversals, p.id) && items != [] && !RepeatedInvoice(items)
                 && Allocated(l.allocations, p.id) + Sum(items, InputAmount()) <= p.amount
                 && BatchError(l, env, p, key, LockOrder(items), 0).None?
  {}

  ghost predicate RowOfBatch(a: Allocation, env: Env, k: nat, payment: Id, items: seq<AllocationInput>, key: Key) {
    exists x | x in items :: a == Allocation(env.ulid(k), payment, x.invoice, x.amount, Some(key), env.now)
  }

  /** One row per item, in the order of their invoices. */
  ghost predicate RowsOfBatch(rows: seq<Allocation>, env: Env, payment: Id, items: seq<AllocationInput>, key: Key) {
    && |rows| == |items|
    && (forall i | 0 <= i < |rows| :: RowOfBatch(rows[i], env, i, payment, items, key))
    && (forall x | x in items :: exists a | a in rows :: a.invoice == x.invoice && a.amount == x.amount)
    && (forall i, j | 0 <= i < j < |rows| :: rows[i].invoice < rows[j].invoice)
  }

  /** An accepted batch under a new key adds exactly its rows. */
  lemma BatchWrites(l: Ledger, env: Env, p: Payment, items: seq<AllocationInput>, key: Key)
    requires UniquePayments(l.payments) && p in l.payments
    requires forall a | a in l.allocations :: !(a.payment == p.id && a.key == Some(key))
    requires Decide(l, env, AllocatePayment(p.id, items, key)).Accept?
    ensures exists rows | RowsOfBatch(rows, env, p.id, items, key) ::
              Step(l, env, AllocatePayment(p.id, items, key)) == l.(allocations := l.allocations + rows)
  {
    BatchIsWritten(l, env, p, items, key);
    LockOrderSorted(items);
    BatchTable(l, env, p.id, key, LockOrder(items), |items|);
    OrderedRows(env, p.id, items, LockOrder(items), key);
  }

  lemma BatchIsWritten(l: Ledger, env: Env, p: Payment, items: seq<AllocationInput>, key: Key)
    requires UniquePayments(l.payments) && p in l.payments
    requires forall a | a in l.allocations :: !(a.payment == p.id && a.key == Some(key))
    requires Decide(l, env, AllocatePayment(p.id, items, key)).Accept?
    ensures OtherInvoices(items)
    ensures Step(l, env, AllocatePayment(p.id, items, key))
            == ApplyAll(l, BatchEffects(env, p.id, key, LockOrder(items), |items|))
  {
    PaymentFound(l.payments, p);
    NoKeyedRows(l, p.id, key);
  }

  lemma NoKeyedRows(l: Ledger, payment: Id, key: Key)
    requires forall a | a in l.allocations :: !(a.payment == payment && a.key == Some(key))
    ensures |KeyedRows(l, payment, key)| == 0
  {
    FilterNone(l.allocations, (a: Allocation) => a.payment == payment && a.key == Some(key));
  }

  lemma OrderedRows(env: Env, payment: Id, items: seq<AllocationInput>, ordered: seq<AllocationInput>, key: Key)
    requires |ordered| == |items| && forall x :: x in ordered <==> x in items
    requires forall i, j | 0 <= i < j < |ordered| :: ordered[i].invoice < ordered[j].invoice
    ensures RowsOfBatch(BatchRows(env, payment, key, ordered), env, payment, items, key)
  {
    var rows := BatchRows(env, payment, key, ordered);
    forall i | 0 <= i < |rows| ensures RowOfBatch(rows[i], env, i, payment, items, key) {
      assert ordered[i] in ordered;
      assert rows[i] == BatchRow(env, payment, key, ordered[i], i);
    }
    forall x | x in items ensures exists a | a in rows :: a.invoice == x.invoice && a.amount == x.amount {
      var j :| 0 <= j < |ordered| && ordered[j] == x;
      assert rows[j] in rows;
    }
  }

  // ---------- reversals ----------

  /** A payment that stands is reversed exactly for a reason and under a key no reversal has. */
  lemma ReversedExactly(l: Ledger, env: Env, p: Payment, reason: string, key: Key)
    requires UniquePayments(l.payments) && p in l.payments
    requires forall r | r in l.reversals :: r.payment != p.id
    ensures Decide(l, env, ReversePayment(p.id, reason, key)).Accept?
            <==> reason != "" && forall r | r in l.reversals :: r.key != key
    ensures Decide(l, env, ReversePayment(p.id, reason, key)).Accept? ==>
              Step(l, env, ReversePayment(p.id, reason, key))
              == l.(reversals := l.reversals + [Reversal(p.id, reason, key, env.now)])
  {
    PaymentFound(l.payments, p);
    OneEffect(l, AddReversal(Reversal(p.id, reason, key, env.now)));
  }

  /** Once it is, only the call that reversed it is answered again. */
  lemma ReversalRepeatedExactly(l: Ledger, env: Env, p: Payment, r: Reversal, reason: string, key: Key)
    requires UniquePayments(l.payments) && p in l.payments
    requires r in l.reversals && r.payment == p.id && forall q | q in l.reversals && q.payment == p.id :: q == r
    ensures Decide(l, env, ReversePayment(p.id, reason, key))
            == if r.key == key then Accept(p.id, []) else Reject(Conflict)
  {
    PaymentFound(l.payments, p);
  }

  // ---------- refunds ----------

  /** A refund under a new key is accepted exactly when the payment stands and what was refunded
      already, with this amount, does not exceed it. */
  lemma RefundedExactly(l: Ledger, env: Env, p: Payment, amount: Vnd, reason: string, key: Key)
    requires Safe(l) && p in l.payments
    requires forall r | r in l.refunds :: !(r.payment == p.id && r.key == key)
    ensures Decide(l, env, RefundPayment(p.id, amount, reason, key)).Accept?
            <==> && (forall r | r in l.reversals :: r.payment != p.id)
                 && Sum(l.refunds, (r: Refund) => if r.payment == p.id then r.amount else 0) + amount <= p.amount
    ensures var d := Decide(l, env, RefundPayment(p.id, amount, reason, key)); d.Reject? ==> d.error == Conflict
  {
    PaymentFound(l.payments, p);
    SumSame(l.refunds, RefundsTerm(p.id), (r: Refund) => if r.payment == p.id then r.amount else 0);
    if Refunds(l.refunds, p.id) + amount <= p.amount { LastCheckNeverFails(l, p, amount); }
    RefundDecided(l, env, p, amount, reason, key);
  }

  lemma RefundDecided(l: Ledger, env: Env, p: Payment, amount: Vnd, reason: string, key: Key)
    requires PaymentById(l.payments, p.id) == Some(p) && RefundByKey(l.refunds, p.id, key).None?
    requires var oldest := OldestFirst(l, p.id);
             var remaining := amount - TakeSum(l, oldest, amount, |oldest|);
             Refunds(l.refunds, p.id) + amount <= p.amount && remaining > 0 ==>
               remaining <= p.amount - Allocated(l.allocations, p.id) - UnallocatedRefunds(l, p.id)
    ensures var d := Decide(l, env, RefundPayment(p.id, amount, reason, key));
            && (d.Accept? <==> !Reversed(l.reversals, p.id) && Refunds(l.refunds, p.id) + amount <= p.amount)
            && (d.Reject? ==> d.error == Conflict)
  {}

  /** Under the key of a refund, only a call with its amount and reason is answered. */
  lemma RefundRepeatedExactly(l: Ledger, env: Env, p: Payment, r: Refund, amount: Vnd, reason: string, key: Key)
    requires UniquePayments(l.payments) && p in l.payments && RefundByKey(l.refunds, p.id, key) == Some(r)
    ensures Decide(l, env, RefundPayment(p.id, amount, reason, key))
            == if r.amount == amount && r.reason == reason then Accept(r.id, []) else Reject(Conflict)
  {
    PaymentFound(l.payments, p);
  }

  /** What refunds have taken back from an allocation, and what it still holds. */
  function TakenBackFrom(splits: seq<RefundAllocation>, a: Allocation): int {
    Sum(splits, (s: RefundAllocation) => if s.allocation == a.id then s.amount else 0)
  }

  function Held(l: Ledger, payment: Id): int {
    Sum(l.allocations, (a: Allocation) =>
          if a.payment == payment then a.amount - TakenBackFrom(l.refundAllocations, a) else 0)
  }

  lemma HeldIsAvailable(l: Ledger, payment: Id)
    ensures Held(l, payment) == Sum(OldestFirst(l, payment), AvailableTerm(l))
  {
    AvailableOfPayment(l, payment);
    var held := (a: Allocation) =>
      if a.payment == payment then a.amount - TakenBackFrom(l.refundAllocations, a) else 0;
    forall a | a in l.allocations && a.payment == payment
      ensures TakenBackFrom(l.refundAllocations, a) == Taken(l.refundAllocations, a.id)
    {
      TakenBackIsTaken(l.refundAllocations, a);
    }
    SumAdds(l.allocations, held, TakenOfPayment(l.refundAllocations, payment), AllocatedTerm(payment));
  }

  lemma TakenBackIsTaken(splits: seq<RefundAllocation>, a: Allocation)
    ensures TakenBackFrom(splits, a) == Taken(splits, a.id)
  {
    SumSame(splits, TakenTerm(a.id), (s: RefundAllocation) => if s.allocation == a.id then s.amount else 0);
  }

  /** What holds of the ledger l' after a refund: its row and its splits are added, the splits come to
      the amount or to all that the payment's allocations held, and whoever gave something leaves only
      emptied allocations before itself. */
  ghost predicate RefundAdded(l: Ledger, l': Ledger, refund: Refund) {
    && l' == l.(refunds := l.refunds + [refund], refundAllocations := l'.refundAllocations)
    && l.refundAllocations <= l'.refundAllocations
    && (forall s | s in l'.refundAllocations[|l.refundAllocations|..] ::
          s.refund == refund.id && 0 < s.amount && s.at == refund.at)
    && Sum(l'.refundAllocations[|l.refundAllocations|..], (s: RefundAllocation) => s.amount)
       == (if refund.amount <= Held(l, refund.payment) then refund.amount else Held(l, refund.payment))
    && (forall a | a in l.allocations ::
          && TakenBackFrom(l.refundAllocations, a) <= TakenBackFrom(l'.refundAllocations, a) <= a.amount
          && (a.payment != refund.payment ==>
                TakenBackFrom(l'.refundAllocations, a) == TakenBackFrom(l.refundAllocations, a)))
    && (forall a, b | a in l.allocations && b in l.allocations && a.payment == b.payment == refund.payment
                      && (a.at < b.at || (a.at == b.at && a.id < b.id))
                      && TakenBackFrom(l.refundAllocations, b) < TakenBackFrom(l'.refundAllocations, b) ::
          TakenBackFrom(l'.refundAllocations, a) == a.amount)
  }

  // How the splits come to be there, allocation by allocation.

  /** The ledger lk holds, beyond those of l, splits of this refund that come to this total. */
  ghost predicate SplitsAdded(l: Ledger, lk: Ledger, refund: Refund, total: int) {
    && l.refundAllocations <= lk.refundAllocations
    && (forall s | s in lk.refundAllocations[|l.refundAllocations|..] ::
          s.refund == refund.id && 0 < s.amount && s.at == refund.at)
    && Sum(lk.refundAllocations[|l.refundAllocations|..], (s: RefundAllocation) => s.amount) == total
  }

  lemma SplitAdded(l: Ledger, lk: Ledger, refund: Refund, total: int, x: RefundAllocation)
    requires SplitsAdded(l, lk, refund, total) && x.refund == refund.id && 0 < x.amount && x.at == refund.at
    ensures SplitsAdded(l, Apply(lk, AddSplit(x)), refund, total + x.amount)
  {
    var n, lk' := |l.refundAllocations|, Apply(lk, AddSplit(x));
    assert lk'.refundAllocations[n..] == lk.refundAllocations[n..] + [x];
    SumSnoc(lk.refundAllocations[n..], x, (s: RefundAllocation) => s.amount);
  }

  lemma SplitsAddedNext(l: Ledger, env: Env, refund: Refund, oldest: seq<Allocation>, k: nat, es: seq<Effect>,
                        es': seq<Effect>)
    requires k < |oldest| && refund.at == env.now && 0 <= Take(l, oldest, refund.amount, k)
    requires SplitsAdded(l, ApplyAll(l, es), refund, TakeSum(l, oldest, refund.amount, k))
    requires var take := Take(l, oldest, refund.amount, k);
             es' == es + if take <= 0 then [] else [AddSplit(RefundAllocation(refund.id, oldest[k].id, take, env.now))]
    ensures SplitsAdded(l, ApplyAll(l, es'), refund, TakeSum(l, oldest, refund.amount, k + 1))
  {
    var take := Take(l, oldest, refund.amount, k);
    if take <= 0 {
      assert es' == es;
    } else {
      var x := RefundAllocation(refund.id, oldest[k].id, take, env.now);
      ApplySnoc(l, es, AddSplit(x));
      SplitAdded(l, ApplyAll(l, es), refund, TakeSum(l, oldest, refund.amount, k), x);
    }
  }

  lemma {:induction false} SplitsAddedUpTo(l: Ledger, env: Env, refund: Refund, oldest: seq<Allocation>, k: nat)
    requires k <= |oldest| && refund.at == env.now && Holding(l, oldest)
    ensures SplitsAdded(l, ApplyAll(l, RefundRows(l, env, refund, oldest, k)), refund,
                        TakeSum(l, oldest, refund.amount, k))
  {
    if k == 0 {
      OneEffect(l, AddRefund(refund));
      assert [AddRefund(refund)] + [] == [AddRefund(refund)];
    } else {
      SplitsAddedUpTo(l, env, refund, oldest, k - 1);
      RefundRowsNext(l, env, refund, oldest, k - 1);
      assert oldest[k - 1] in oldest;
      SplitsAddedNext(l, env, refund, oldest, k - 1, RefundRows(l, env, refund, oldest, k - 1),
                      RefundRows(l, env, refund, oldest, k));
    }
  }

  lemma {:induction false} TakenInTurn(l: Ledger, oldest: seq<Allocation>, amount: int, k: nat, m: nat)
    requires m < k <= |oldest|
    requires forall i, j | 0 <= i < j < |oldest| :: oldest[i].id != oldest[j].id
    ensures TakenFromOne(l, oldest, amount, k, oldest[m]) == Take(l, oldest, amount, m)
  {
    if m == k - 1 {
      NotYetTaken(l, oldest, amount, m, m);
    } else {
      TakenInTurn(l, oldest, amount, k - 1, m);
    }
  }

  /** What the refund took from the m-th oldest allocation. */
  lemma TakenFromOldest(l: Ledger, l': Ledger, refund: Refund, oldest: seq<Allocation>, m: nat)
    requires SplitState(l, l', refund, oldest, |oldest|) && m < |oldest|
    requires forall i, j | 0 <= i < j < |oldest| :: oldest[i].id != oldest[j].id
    ensures TakenBackFrom(l'.refundAllocations, oldest[m])
            == TakenBackFrom(l.refundAllocations, oldest[m]) + Take(l, oldest, refund.amount, m)
  {
    TakenInTurn(l, oldest, refund.amount, |oldest|, m);
    assert oldest[m] in oldest;
    TakenBackIsTaken(l.refundAllocations, oldest[m]);
    TakenBackIsTaken(l'.refundAllocations, oldest[m]);
  }

  lemma OthersUntouched(l: Ledger, l': Ledger, refund: Refund, oldest: seq<Allocation>, total: int, a: Allocation)
    requires SplitState(l, l', refund, oldest, |oldest|) && SplitsAdded(l, l', refund, total)
    requires forall b | b in oldest :: b.id != a.id
    ensures TakenBackFrom(l'.refundAllocations, a) == TakenBackFrom(l.refundAllocations, a)
  {
    var n := |l.refundAllocations|;
    var f := (s: RefundAllocation) => if s.allocation == a.id then s.amount else 0;
    assert l'.refundAllocations == l.refundAllocations + l'.refundAllocations[n..];
    SumConcat(l.refundAllocations, l'.refundAllocations[n..], f);
    forall s | s in l'.refundAllocations[n..] ensures f(s) == 0 {
      assert s in l'.refundAllocations && s.refund == refund.id;
      var j :| 0 <= j < |oldest| && oldest[j].id == s.allocation;
      assert oldest[j] in oldest;
    }
    SumZero(l'.refundAllocations[n..], f);
  }

  lemma OlderEmptied(l: Ledger, l': Ledger, refund: Refund, oldest: seq<Allocation>, j: nat, k: nat)
    requires SplitState(l, l', refund, oldest, |oldest|) && j < |oldest| && k < |oldest| && j != k
    requires forall i, m | 0 <= i < m < |oldest| :: oldest[i].id != oldest[m].id
    requires Increasing(oldest, Older) && Holding(l, oldest)
    requires oldest[j].at < oldest[k].at || (oldest[j].at == oldest[k].at && oldest[j].id < oldest[k].id)
    requires TakenBackFrom(l.refundAllocations, oldest[k]) < TakenBackFrom(l'.refundAllocations, oldest[k])
    ensures TakenBackFrom(l'.refundAllocations, oldest[j]) == oldest[j].amount
  {
    TakenFromOldest(l, l', refund, oldest, k);
    TakenFromOldest(l, l', refund, oldest, j);
    OlderExhausted(l, oldest, refund.amount, j, k);
    TakenBackIsTaken(l.refundAllocations, oldest[j]);
  }

  /** The waterfall's list and what the refund's splits did to it. */
  ghost predicate Poured(l: Ledger, l': Ledger, refund: Refund, oldest: seq<Allocation>) {
    && UniqueAllocations(l.allocations) && Increasing(oldest, Older) && Holding(l, oldest)
    && (forall i, j | 0 <= i < j < |oldest| :: oldest[i].id != oldest[j].id)
    && (forall a :: a in oldest <==> a in l.allocations && a.payment == refund.payment)
    && SplitState(l, l', refund, oldest, |oldest|)
    && SplitsAdded(l, l', refund, TakeSum(l, oldest, refund.amount, |oldest|))
  }

  lemma PouredEach(l: Ledger, l': Ledger, refund: Refund, oldest: seq<Allocation>, a: Allocation)
    requires Poured(l, l', refund, oldest) && AllocationsCovered(l) && a in l.allocations
    ensures TakenBackFrom(l.refundAllocations, a) <= TakenBackFrom(l'.refundAllocations, a) <= a.amount
    ensures a.payment != refund.payment ==>
              TakenBackFrom(l'.refundAllocations, a) == TakenBackFrom(l.refundAllocations, a)
  {
    TakenBackIsTaken(l.refundAllocations, a);
    if a in oldest {
      var m :| 0 <= m < |oldest| && oldest[m] == a;
      TakenFromOldest(l, l', refund, oldest, m);
    } else {
      forall b | b in oldest ensures b.id != a.id {
        AllocationFound(l.allocations, a);
        AllocationFound(l.allocations, b);
      }
      OthersUntouched(l, l', refund, oldest, TakeSum(l, oldest, refund.amount, |oldest|), a);
    }
  }

  lemma PouredInOrder(l: Ledger, l': Ledger, refund: Refund, oldest: seq<Allocation>, a: Allocation, b: Allocation)
    requires Poured(l, l', refund, oldest) && a in oldest && b in oldest
    requires a.at < b.at || (a.at == b.at && a.id < b.id)
    requires TakenBackFrom(l.refundAllocations, b) < TakenBackFrom(l'.refundAllocations, b)
    ensures TakenBackFrom(l'.refundAllocations, a) == a.amount
  {
    var j :| 0 <= j < |oldest| && oldest[j] == a;
    var k :| 0 <= k < |oldest| && oldest[k] == b;
    OlderEmptied(l, l', refund, oldest, j, k);
  }

  lemma PouredIsAdded(l: Ledger, l': Ledger, refund: Refund)
    requires 0 < refund.amount && AllocationsCovered(l) && Poured(l, l', refund, OldestFirst(l, refund.payment))
    ensures RefundAdded(l, l', refund)
  {
    var oldest := OldestFirst(l, refund.payment);
    HeldIsAvailable(l, refund.payment);
    TakeSumIsLeast(l, oldest, refund.amount, |oldest|);
    assert oldest[..|oldest|] == oldest;
    forall a | a in l.allocations
      ensures TakenBackFrom(l.refundAllocations, a) <= TakenBackFrom(l'.refundAllocations, a) <= a.amount
      ensures a.payment != refund.payment ==>
                TakenBackFrom(l'.refundAllocations, a) == TakenBackFrom(l.refundAllocations, a)
    {
      PouredEach(l, l', refund, oldest, a);
    }
    forall a, b | a in l.allocations && b in l.allocations && a.payment == b.payment == refund.payment
                  && (a.at < b.at || (a.at == b.at && a.id < b.id))
                  && TakenBackFrom(l.refundAllocations, b) < TakenBackFrom(l'.refundAllocations, b)
      ensures TakenBackFrom(l'.refundAllocations, a) == a.amount
    {
      PouredInOrder(l, l', refund, oldest, a, b);
    }
  }

  lemma WaterfallPours(l: Ledger, env: Env, refund: Refund)
    requires Linked(l) && Guard(l, AddRefund(refund)) && refund.at == env.now
    ensures var oldest := OldestFirst(l, refund.payment);
            Poured(l, ApplyAll(l, RefundRows(l, env, refund, oldest, |oldest|)), refund, oldest)
  {
    var oldest := OldestFirst(l, refund.payment);
    OldestHolding(l, refund.payment);
    OldestDistinct(l, refund.payment);
    OldestMembers(l, refund.payment);
    OldestSorted(l, refund.payment);
    WaterfallGuarded(l, env, refund);
    SplitsAddedUpTo(l, env, refund, oldest, |oldest|);
  }

  lemma RefundIsPoured(l: Ledger, env: Env, p: Payment, amount: Vnd, reason: string, key: Key)
    requires Linked(l) && Fresh(l, env) && p in l.payments
    requires RefundByKey(l.refunds, p.id, key).None?
    requires Decide(l, env, RefundPayment(p.id, amount, reason, key)).Accept?
    ensures var refund, oldest := Refund(env.ulid(0), p.id, amount, reason, key, env.now), OldestFirst(l, p.id);
            && Guard(l, AddRefund(refund))
            && Step(l, env, RefundPayment(p.id, amount, reason, key))
               == ApplyAll(l, RefundRows(l, env, refund, oldest, |oldest|))
  {
    PaymentFound(l.payments, p);
  }

  /** An accepted refund under a new key adds exactly its row and its splits, oldest first. */
  lemma RefundWrites(l: Ledger, env: Env, p: Payment, amount: Vnd, reason: string, key: Key)
    requires Linked(l) && Fresh(l, env) && p in l.payments
    requires forall r | r in l.refunds :: !(r.payment == p.id && r.key == key)
    requires Decide(l, env, RefundPayment(p.id, amount, reason, key)).Accept?
    ensures RefundAdded(l, Step(l, env, RefundPayment(p.id, amount, reason, key)),
                        Refund(env.ulid(0), p.id, amount, reason, key, env.now))
  {
    var refund := Refund(env.ulid(0), p.id, amount, reason, key, env.now);
    RefundIsPoured(l, env, p, amount, reason, key);
    WaterfallPours(l, env, refund);
    PouredIsAdded(l, Step(l, env, RefundPayment(p.id, amount, reason, key)), refund);
  }

  // ---------- credit notes ----------

  /** A credit note under a new key is drafted exactly on an issued invoice that owes the amount. */
  lemma NoteDraftedExactly(l: Ledger, env: Env, inv: Invoice, amount: Vnd, reason: string, key: Key)
    requires UniqueInvoices(l.invoices) && inv in l.invoices && forall n | n in l.notes :: n.key != key
    ensures Decide(l, env, CreateCreditNote(inv.id, amount, reason, key)).Accept?
            <==> inv.status == Issued && amount + Paid(l, inv.id) + Credit(l, inv.id) <= inv.total
    ensures var d := Decide(l, env, CreateCreditNote(inv.id, amount, reason, key)); d.Reject? ==> d.error == Conflict
    ensures Decide(l, env, CreateCreditNote(inv.id, amount, reason, key)).Accept? ==>
              Step(l, env, CreateCreditNote(inv.id, amount, reason, key))
              == l.(notes := l.notes
                      + [CreditNote(env.ulid(0), inv.id, amount, reason, key, DraftNote, None, env.now)])
  {
    InvoiceFound(l.invoices, inv);
    OneEffect(l, AddNote(CreditNote(env.ulid(0), inv.id, amount, reason, key, DraftNote, None, env.now)));
  }

  /** Under the key of a credit note, only a call with its own details is answered. */
  lemma NoteRepeatedExactly(l: Ledger, env: Env, n: CreditNote, invoice: Id, amount: Vnd, reason: string, key: Key)
    requires NoteByKey(l.notes, key) == Some(n)
    ensures Decide(l, env, CreateCreditNote(invoice, amount, reason, key))
            == if n.invoice == invoice && n.amount == amount && n.reason == reason then Accept(n.id, [])
               else Reject(Conflict)
  {}

  /** A drafted note is issued exactly when its invoice is issued and still owes its amount. */
  lemma NoteIssuedExactly(l: Ledger, env: Env, n: CreditNote)
    requires UniqueInvoices(l.invoices) && UniqueNotes(l.notes) && n in l.notes && n.status == DraftNote
    ensures Decide(l, env, IssueCreditNote(n.id)).Accept?
            <==> exists inv | inv in l.invoices && inv.id == n.invoice ::
                   inv.status == Issued && n.amount + Paid(l, inv.id) + Credit(l, inv.id) <= inv.total
    ensures Decide(l, env, IssueCreditNote(n.id)).Accept? ==>
              NoteRestated(l, Step(l, env, IssueCreditNote(n.id)), env, n)
  {
    NoteFound(l.notes, n);
    if InvoiceById(l.invoices, n.invoice).Some? {
      var inv := InvoiceById(l.invoices, n.invoice).value;
      forall other | other in l.invoices && other.id == n.invoice ensures other == inv {
        InvoiceFound(l.invoices, other);
      }
    }
    NoteWritten(l, env, n);
    OneEffect(l, IssueNote(n.id, env.now));
  }

  /** An issued one is answered again until it is void. */
  lemma NoteIssuedAgain(l: Ledger, env: Env, n: CreditNote)
    requires UniqueNotes(l.notes) && n in l.notes && n.status == IssuedNote
    ensures Decide(l, env, IssueCreditNote(n.id))
            == if forall v | v in l.voids :: v.note != n.id then Accept(n.id, []) else Reject(Conflict)
  {
    NoteFound(l.notes, n);
  }

  /** This note's status and time of issue, and nothing else. */
  ghost predicate NoteRestated(l: Ledger, l': Ledger, env: Env, n: CreditNote) {
    && l' == l.(notes := l'.notes) && |l'.notes| == |l.notes|
    && forall k | 0 <= k < |l.notes| ::
         l'.notes[k] == if l.notes[k] == n then n.(status := IssuedNote, issuedAt := Some(env.now)) else l.notes[k]
  }

  lemma NoteWritten(l: Ledger, env: Env, n: CreditNote)
    requires UniqueNotes(l.notes) && n in l.notes
    ensures NoteRestated(l, Apply(l, IssueNote(n.id, env.now)), env, n)
  {
    forall k | 0 <= k < |l.notes|
      ensures AsIssued(n.id, env.now)(l.notes[k])
              == if l.notes[k] == n then n.(status := IssuedNote, issuedAt := Some(env.now)) else l.notes[k]
    {
      NoteFound(l.notes, n);
      NoteFound(l.notes, l.notes[k]);
    }
  }

  /** A note nobody voided is voided exactly when issued, for a reason and under a key no void has. */
  lemma NoteVoidedExactly(l: Ledger, env: Env, n: CreditNote, reason: string, key: Key)
    requires UniqueNotes(l.notes) && n in l.notes && forall v | v in l.voids :: v.note != n.id
    ensures Decide(l, env, VoidCreditNote(n.id, reason, key)).Accept?
            <==> n.status == IssuedNote && reason != "" && forall v | v in l.voids :: v.key != key
    ensures Decide(l, env, VoidCreditNote(n.id, reason, key)) == Reject(Conflict) <==> n.status == DraftNote
    ensures Decide(l, env, VoidCreditNote(n.id, reason, key)).Accept? ==>
              Step(l, env, VoidCreditNote(n.id, reason, key))
              == l.(voids := l.voids + [NoteVoid(n.id, reason, key, env.now)])
  {
    NoteFound(l.notes, n);
    OneEffect(l, AddVoid(NoteVoid(n.id, reason, key, env.now)));
  }

  /** Once it is, only the call that voided it is answered again. */
  lemma VoidRepeatedExactly(l: Ledger, env: Env, n: CreditNote, v: NoteVoid, reason: string, key: Key)
    requires UniqueNotes(l.notes) && n in l.notes && n.status == IssuedNote
    requires v in l.voids && v.note == n.id && forall w | w in l.voids && w.note == n.id :: w == v
    ensures Decide(l, env, VoidCreditNote(n.id, reason, key))
            == if v.key == key && v.reason == reason then Accept(n.id, []) else Reject(Conflict)
  {
    NoteFound(l.notes, n);
  }
}
