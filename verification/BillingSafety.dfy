/** Safety of the billing ledger over every run of commands. */
module BillingSafety {
  import opened Collections
  import opened Ordering
  import opened Billing

  // ---------- the invariant ----------

  ghost predicate UniqueInvoices(s: seq<Invoice>) { forall i, j | 0 <= i < j < |s| :: s[i].id != s[j].id }
  ghost predicate UniquePayments(s: seq<Payment>) { forall i, j | 0 <= i < j < |s| :: s[i].id != s[j].id }
  ghost predicate UniqueAllocations(s: seq<Allocation>) { forall i, j | 0 <= i < j < |s| :: s[i].id != s[j].id }
  ghost predicate UniqueRefunds(s: seq<Refund>) { forall i, j | 0 <= i < j < |s| :: s[i].id != s[j].id }
  ghost predicate UniqueNotes(s: seq<CreditNote>) { forall i, j | 0 <= i < j < |s| :: s[i].id != s[j].id }

  ghost predicate UniqueIds(l: Ledger) {
    && UniqueInvoices(l.invoices) && UniquePayments(l.payments) && UniqueAllocations(l.allocations)
    && UniqueRefunds(l.refunds) && UniqueNotes(l.notes)
  }

  predicate Receivable(l: Ledger, invoice: Id) {
    var x := InvoiceById(l.invoices, invoice);
    x.Some? && x.value.status != Draft
  }

  ghost predicate AllocationsLinked(l: Ledger) {
    forall a | a in l.allocations ::
      0 < a.amount && PaymentById(l.payments, a.payment).Some? && Receivable(l, a.invoice)
  }

  predicate SplitLinked(l: Ledger, x: RefundAllocation) {
    var a := AllocationById(l.allocations, x.allocation);
    var r := RefundById(l.refunds, x.refund);
    0 < x.amount && a.Some? && r.Some? && a.value.payment == r.value.payment
  }

  ghost predicate SplitsLinked(l: Ledger) {
    forall x | x in l.refundAllocations :: SplitLinked(l, x)
  }

  ghost predicate AllocationsCovered(l: Ledger) {
    forall a | a in l.allocations :: Taken(l.refundAllocations, a.id) <= a.amount
  }

  ghost predicate RefundsCovered(l: Ledger) {
    forall r | r in l.refunds ::
      0 < r.amount && PaymentById(l.payments, r.payment).Some? && Split(l.refundAllocations, r.id) <= r.amount
  }

  ghost predicate PaymentsCovered(l: Ledger) {
    forall p | p in l.payments ::
      0 < p.amount && Allocated(l.allocations, p.id) <= p.amount && Refunds(l.refunds, p.id) <= p.amount
  }

  ghost predicate NotesLinked(l: Ledger) {
    && (forall n | n in l.notes :: 0 < n.amount && Receivable(l, n.invoice))
    && (forall r | r in l.reversals :: PaymentById(l.payments, r.payment).Some?)
    && (forall v | v in l.voids :: NoteById(l.notes, v.note).Some?)
  }

  ghost predicate Linked(l: Ledger) {
    && UniqueIds(l) && AllocationsLinked(l) && SplitsLinked(l) && AllocationsCovered(l)
    && RefundsCovered(l) && PaymentsCovered(l) && NotesLinked(l)
  }

  ghost predicate Settled(l: Ledger, x: Invoice) {
    && 0 <= x.total
    && Paid(l, x.id) + Credit(l, x.id) <= x.total
    && (x.status == Voided ==> Paid(l, x.id) == 0)
  }

  ghost predicate Balanced(l: Ledger) {
    forall x | x in l.invoices :: Settled(l, x)
  }

  ghost predicate Safe(l: Ledger) {
    Linked(l) && Balanced(l)
  }

  // ---------- rows and their ids ----------

  lemma InvoiceFound(s: seq<Invoice>, x: Invoice)
    requires UniqueInvoices(s) && x in s
    ensures InvoiceById(s, x.id) == Some(x)
  {}

  lemma PaymentFound(s: seq<Payment>, x: Payment)
    requires UniquePayments(s) && x in s
    ensures PaymentById(s, x.id) == Some(x)
  {}

  lemma AllocationFound(s: seq<Allocation>, x: Allocation)
    requires UniqueAllocations(s) && x in s
    ensures AllocationById(s, x.id) == Some(x)
  {}

  lemma RefundFound(s: seq<Refund>, x: Refund)
    requires UniqueRefunds(s) && x in s
    ensures RefundById(s, x.id) == Some(x)
  {}

  lemma NoteFound(s: seq<CreditNote>, x: CreditNote)
    requires UniqueNotes(s) && x in s
    ensures NoteById(s, x.id) == Some(x)
  {}

  // ---------- paid, allocation by allocation ----------

  function NetTerm(splits: seq<RefundAllocation>, reversals: seq<Reversal>, invoice: Id): Allocation -> int {
    (a: Allocation) =>
      if a.invoice == invoice && !Reversed(reversals, a.payment) then a.amount - Taken(splits, a.id) else 0
  }

  function LiveTaken(reversals: seq<Reversal>, invoice: Id): Allocation -> RefundAllocation -> int {
    (a: Allocation) => (x: RefundAllocation) =>
      if a.invoice == invoice && !Reversed(reversals, a.payment) && x.allocation == a.id then x.amount else 0
  }

  function LiveTakenFrom(reversals: seq<Reversal>, invoice: Id): RefundAllocation -> Allocation -> int {
    (x: RefundAllocation) => (a: Allocation) =>
      if a.invoice == invoice && !Reversed(reversals, a.payment) && x.allocation == a.id then x.amount else 0
  }

  lemma TakenBackByAllocation(l: Ledger, invoice: Id, group: Allocation -> int)
    requires UniqueIds(l) && SplitsLinked(l)
    requires forall a | a in l.allocations ::
      group(a) == if a.invoice == invoice && !Reversed(l.reversals, a.payment) then Taken(l.refundAllocations, a.id)
        else 0
    ensures TakenBack(l, invoice) == Sum(l.allocations, group)
  {
    var across, down := LiveTaken(l.reversals, invoice), LiveTakenFrom(l.reversals, invoice);
    var w := TakenBackTerm(l.allocations, l.refunds, l.reversals, invoice);
    forall a | a in l.allocations ensures group(a) == Sum(l.refundAllocations, across(a)) {
      if a.invoice == invoice && !Reversed(l.reversals, a.payment) {
        SumSame(l.refundAllocations, TakenTerm(a.id), across(a));
      } else {
        SumZero(l.refundAllocations, across(a));
      }
    }
    forall x | x in l.refundAllocations ensures Sum(l.allocations, down(x)) == w(x) {
      var a := AllocationById(l.allocations, x.allocation).value;
      forall b | b in l.allocations && b.id == x.allocation ensures b == a {
        AllocationFound(l.allocations, b);
      }
      SumSingle(l.allocations, a, w(x), down(x));
    }
    SumExchange(l.allocations, l.refundAllocations, across, down, group, w);
  }

  lemma PaidIsNet(l: Ledger, invoice: Id)
    requires UniqueIds(l) && SplitsLinked(l)
    ensures Paid(l, invoice) == Sum(l.allocations, NetTerm(l.refundAllocations, l.reversals, invoice))
  {
    var taken := (a: Allocation) =>
      if a.invoice == invoice && !Reversed(l.reversals, a.payment) then Taken(l.refundAllocations, a.id) else 0;
    TakenBackByAllocation(l, invoice, taken);
    SumAdds(l.allocations, NetTerm(l.refundAllocations, l.reversals, invoice), taken, GrossTerm(l.reversals, invoice));
  }

  lemma PaidNonNegative(l: Ledger, invoice: Id)
    requires Linked(l)
    ensures 0 <= Paid(l, invoice)
  {
    PaidIsNet(l, invoice);
    SumNonNegative(l.allocations, NetTerm(l.refundAllocations, l.reversals, invoice));
  }

  lemma CreditNonNegative(l: Ledger, invoice: Id)
    requires NotesLinked(l)
    ensures 0 <= Credit(l, invoice)
  {
    SumNonNegative(l.notes, CreditTerm(l.voids, invoice));
  }

  // ---------- what stands between a row and the ledger ----------

  /** The database's constraints and triggers: primary, unique and foreign keys among the ledger's
      tables, column checks, and what the triggers on allocations, refund splits, invoices and credit
      notes let through. */
  ghost predicate DatabaseAccepts(l: Ledger, e: Effect) {
    match e
    case AddInvoice(x) => 0 <= x.total && InvoiceById(l.invoices, x.id).None?
    case SetStatus(id, status, _) =>
      var x := InvoiceById(l.invoices, id);
      x.Some? && (x.value.status == Draft || (x.value.status == Issued && status == Voided))
    case AddPayment(x) =>
      && 0 < x.amount && PaymentById(l.payments, x.id).None? && PaymentByKey(l.payments, x.key).None?
      && (x.invoice.Some? ==> InvoiceById(l.invoices, x.invoice.value).Some?)
    case AddReversal(x) =>
      && PaymentById(l.payments, x.payment).Some? && x.reason != ""
      && (forall r | r in l.reversals :: r.payment != x.payment && r.key != x.key)
    case AddAllocation(x) =>
      var p, inv := PaymentById(l.payments, x.payment), InvoiceById(l.invoices, x.invoice);
      && 0 < x.amount && AllocationById(l.allocations, x.id).None?
      && (forall a | a in l.allocations :: !(a.payment == x.payment && a.invoice == x.invoice))
      && p.Some? && !Reversed(l.reversals, x.payment)
         && Allocated(l.allocations, x.payment) + x.amount <= p.value.amount
      && inv.Some? && inv.value.status == Issued && x.amount <= Outstanding(l, inv.value)
    case AddRefund(x) =>
      && 0 < x.amount && RefundById(l.refunds, x.id).None? && PaymentById(l.payments, x.payment).Some?
      && RefundByKey(l.refunds, x.payment, x.key).None?
    case AddSplit(x) =>
      var a, r := AllocationById(l.allocations, x.allocation), RefundById(l.refunds, x.refund);
      && 0 < x.amount && a.Some? && r.Some? && a.value.payment == r.value.payment
      && (forall y | y in l.refundAllocations :: !(y.refund == x.refund && y.allocation == x.allocation))
      && Split(l.refundAllocations, x.refund) + x.amount <= r.value.amount
      && Taken(l.refundAllocations, x.allocation) + x.amount <= a.value.amount
    case AddNote(x) =>
      && 0 < x.amount && NoteById(l.notes, x.id).None? && NoteByKey(l.notes, x.key).None?
      && InvoiceById(l.invoices, x.invoice).Some?
    case IssueNote(id, _) =>
      var n := NoteById(l.notes, id);
      n.Some? && n.value.status == DraftNote
    case AddVoid(x) =>
      && NoteById(l.notes, x.note).Some? && x.reason != ""
      && (forall v | v in l.voids :: v.note != x.note && v.key != x.key)
  }

  /** What only the service checks: an invoice starts as a draft, is issued from there, and is voided
      only unpaid; refunds stay within their payment; credit notes start as drafts on an invoice no
      longer a draft, and are issued within its outstanding amount. */
  ghost predicate ServiceChecked(l: Ledger, e: Effect) {
    match e
    case AddInvoice(x) => x.status == Draft
    case SetStatus(id, status, _) =>
      var x := InvoiceById(l.invoices, id);
      x.Some? && if x.value.status == Draft then status == Issued else status == Voided && Paid(l, id) <= 0
    case AddRefund(x) =>
      var p := PaymentById(l.payments, x.payment);
      p.Some? && Refunds(l.refunds, x.payment) + x.amount <= p.value.amount
    case AddNote(x) => x.status == DraftNote && Receivable(l, x.invoice)
    case IssueNote(id, _) =>
      var n := NoteById(l.notes, id);
      n.Some?
      && var inv := InvoiceById(l.invoices, n.value.invoice);
         inv.Some? && n.value.amount <= Outstanding(l, inv.value)
    case _ => true
  }

  ghost predicate Guard(l: Ledger, e: Effect) {
    DatabaseAccepts(l, e) && ServiceChecked(l, e)
  }

  /** Foreign keys into the students and enrollments tables. */
  predicate ReferencesHeld(env: Env, e: Effect) {
    match e
    case AddInvoice(x) => x.student in env.students && (x.enrollment.Some? ==> x.enrollment.value in env.enrollments)
    case AddPayment(x) => x.student.Some? ==> x.student.value in env.students
    case _ => true
  }

  // ---------- inserts change no earlier lookup ----------

  lemma InvoicesGrow(s: seq<Invoice>, y: Invoice)
    ensures forall id {:trigger InvoiceById(s + [y], id)} ::
      InvoiceById(s + [y], id) == if InvoiceById(s, id).Some? then InvoiceById(s, id) else if y.id == id then Some(y)
        else None
  {
    forall id { FindSnoc(s, y, (x: Invoice) => x.id == id); }
  }

  lemma PaymentsGrow(s: seq<Payment>, y: Payment)
    ensures forall id {:trigger PaymentById(s + [y], id)} ::
      PaymentById(s + [y], id) == if PaymentById(s, id).Some? then PaymentById(s, id) else if y.id == id then Some(y)
        else None
  {
    forall id { FindSnoc(s, y, (x: Payment) => x.id == id); }
  }

  lemma AllocationsGrow(s: seq<Allocation>, y: Allocation)
    ensures forall id {:trigger AllocationById(s + [y], id)} ::
      AllocationById(s + [y], id) == var r := AllocationById(s, id); if r.Some? then r else if y.id == id then Some(y)
        else None
  {
    forall id { FindSnoc(s, y, (x: Allocation) => x.id == id); }
  }

  lemma RefundsGrow(s: seq<Refund>, y: Refund)
    ensures forall id {:trigger RefundById(s + [y], id)} ::
      RefundById(s + [y], id) == if RefundById(s, id).Some? then RefundById(s, id) else if y.id == id then Some(y)
        else None
  {
    forall id { FindSnoc(s, y, (x: Refund) => x.id == id); }
  }

  lemma NotesGrow(s: seq<CreditNote>, y: CreditNote)
    ensures forall id {:trigger NoteById(s + [y], id)} ::
      NoteById(s + [y], id) == if NoteById(s, id).Some? then NoteById(s, id) else if y.id == id then Some(y) else None
  {
    forall id { FindSnoc(s, y, (x: CreditNote) => x.id == id); }
  }

  lemma ReversalsGrow(s: seq<Reversal>, y: Reversal)
    ensures forall id {:trigger Reversed(s + [y], id)} :: Reversed(s + [y], id) <==> Reversed(s, id) || y.payment == id
  {
    forall id ensures Reversed(s + [y], id) <==> Reversed(s, id) || y.payment == id {
      FindSnoc(s, y, (r: Reversal) => r.payment == id);
    }
  }

  lemma VoidsGrow(s: seq<NoteVoid>, y: NoteVoid)
    ensures forall id {:trigger NoteVoided(s + [y], id)} ::
      NoteVoided(s + [y], id) <==> NoteVoided(s, id) || y.note == id
  {
    forall id ensures NoteVoided(s + [y], id) <==> NoteVoided(s, id) || y.note == id {
      FindSnoc(s, y, (v: NoteVoid) => v.note == id);
    }
  }

  // ---------- each row operation keeps the ledger safe ----------

  lemma InvoiceKeepsLinks(l: Ledger, x: Invoice)
    requires AllocationsLinked(l) && NotesLinked(l)
    ensures AllocationsLinked(Apply(l, AddInvoice(x))) && NotesLinked(Apply(l, AddInvoice(x)))
  {
    InvoicesGrow(l.invoices, x);
  }

  lemma NewInvoiceSettled(l: Ledger, x: Invoice)
    requires AllocationsLinked(l) && SplitsLinked(l) && NotesLinked(l) && Guard(l, AddInvoice(x))
    ensures Settled(l, x)
  {
    SumZero(l.allocations, GrossTerm(l.reversals, x.id));
    SumZero(l.refundAllocations, TakenBackTerm(l.allocations, l.refunds, l.reversals, x.id));
    SumZero(l.notes, CreditTerm(l.voids, x.id));
  }

  lemma AddInvoiceSafe(l: Ledger, x: Invoice)
    requires Safe(l) && Guard(l, AddInvoice(x))
    ensures Safe(Apply(l, AddInvoice(x)))
  {
    var l' := Apply(l, AddInvoice(x));
    InvoiceKeepsLinks(l, x);
    NewInvoiceSettled(l, x);
    assert UniqueInvoices(l'.invoices);
    forall y | y in l'.invoices ensures Settled(l', y) {
      assert y != x ==> y in l.invoices;
      assert Settled(l, y);
    }
  }

  lemma PaymentKeepsLinks(l: Ledger, x: Payment)
    requires AllocationsLinked(l) && RefundsCovered(l) && NotesLinked(l)
    ensures var l' := Apply(l, AddPayment(x)); AllocationsLinked(l') && RefundsCovered(l') && NotesLinked(l')
  {
    PaymentsGrow(l.payments, x);
  }

  lemma NewPaymentCovered(l: Ledger, x: Payment)
    requires AllocationsLinked(l) && RefundsCovered(l) && PaymentsCovered(l) && Guard(l, AddPayment(x))
    ensures PaymentsCovered(Apply(l, AddPayment(x)))
  {
    SumZero(l.allocations, AllocatedTerm(x.id));
    SumZero(l.refunds, RefundsTerm(x.id));
  }

  lemma AddPaymentSafe(l: Ledger, x: Payment)
    requires Safe(l) && Guard(l, AddPayment(x))
    ensures Safe(Apply(l, AddPayment(x)))
  {
    var l' := Apply(l, AddPayment(x));
    PaymentKeepsLinks(l, x);
    NewPaymentCovered(l, x);
    assert UniquePayments(l'.payments);
    assert SplitsLinked(l') by {
      forall s | s in l'.refundAllocations ensures SplitLinked(l', s) { assert SplitLinked(l, s); }
    }
    forall y | y in l'.invoices ensures Settled(l', y) { assert Settled(l, y); }
  }

  lemma AddReversalSafe(l: Ledger, x: Reversal)
    requires Safe(l) && Guard(l, AddReversal(x))
    ensures Safe(Apply(l, AddReversal(x)))
  {
    var l' := Apply(l, AddReversal(x));
    ReversalsGrow(l.reversals, x);
    assert Linked(l');
    forall y | y in l'.invoices ensures Settled(l', y) {
      PaidNonNegative(l', y.id);
      PaidIsNet(l, y.id);
      PaidIsNet(l', y.id);
      SumLess(l.allocations, NetTerm(l.refundAllocations, l'.reversals, y.id),
              NetTerm(l.refundAllocations, l.reversals, y.id));
      assert Settled(l, y);
    }
  }

  lemma PaidAfterAllocation(l: Ledger, x: Allocation, invoice: Id)
    requires SplitsLinked(l)
    ensures Paid(Apply(l, AddAllocation(x)), invoice)
            == Paid(l, invoice) + if x.invoice == invoice && !Reversed(l.reversals, x.payment) then x.amount else 0
  {
    var grown := l.allocations + [x];
    AllocationsGrow(l.allocations, x);
    SumSnoc(l.allocations, x, GrossTerm(l.reversals, invoice));
    var f := TakenBackTerm(l.allocations, l.refunds, l.reversals, invoice);
    var g := TakenBackTerm(grown, l.refunds, l.reversals, invoice);
    forall s | s in l.refundAllocations ensures f(s) == g(s) {
      assert SplitLinked(l, s);
      assert AllocationById(grown, s.allocation) == AllocationById(l.allocations, s.allocation);
    }
    SumSame(l.refundAllocations, f, g);
  }

  lemma AllocationsStayCovered(l: Ledger, x: Allocation)
    requires SplitsLinked(l) && AllocationsCovered(l) && 0 < x.amount && AllocationById(l.allocations, x.id).None?
    ensures SplitsLinked(Apply(l, AddAllocation(x))) && AllocationsCovered(Apply(l, AddAllocation(x)))
  {
    var l' := Apply(l, AddAllocation(x));
    AllocationsGrow(l.allocations, x);
    forall s | s in l.refundAllocations ensures SplitLinked(l', s) && TakenTerm(x.id)(s) == 0 {
      assert SplitLinked(l, s);
      assert AllocationById(l'.allocations, s.allocation) == AllocationById(l.allocations, s.allocation);
    }
    SumZero(l.refundAllocations, TakenTerm(x.id));
  }

  lemma PaymentsStayAllocated(l: Ledger, x: Allocation)
    requires UniquePayments(l.payments) && PaymentsCovered(l)
    requires PaymentById(l.payments, x.payment).Some?
    requires Allocated(l.allocations, x.payment) + x.amount <= PaymentById(l.payments, x.payment).value.amount
    ensures PaymentsCovered(Apply(l, AddAllocation(x)))
  {
    forall p | p in l.payments ensures Allocated(l.allocations + [x], p.id) <= p.amount {
      SumSnoc(l.allocations, x, AllocatedTerm(p.id));
      PaymentFound(l.payments, p);
    }
  }

  lemma NewAllocationLinked(l: Ledger, x: Allocation)
    requires AllocationsLinked(l) && UniqueAllocations(l.allocations) && Guard(l, AddAllocation(x))
    ensures AllocationsLinked(Apply(l, AddAllocation(x))) && UniqueAllocations(l.allocations + [x])
  {
    var l' := Apply(l, AddAllocation(x));
    forall a | a in l'.allocations
      ensures 0 < a.amount && PaymentById(l'.payments, a.payment).Some? && Receivable(l', a.invoice)
    {
      assert a != x ==> a in l.allocations;
    }
  }

  lemma AddAllocationLinked(l: Ledger, x: Allocation)
    requires Linked(l) && Guard(l, AddAllocation(x))
    ensures Linked(Apply(l, AddAllocation(x)))
  {
    var l' := Apply(l, AddAllocation(x));
    AllocationsStayCovered(l, x);
    PaymentsStayAllocated(l, x);
    NewAllocationLinked(l, x);
  }

  lemma AddAllocationSafe(l: Ledger, x: Allocation)
    requires Safe(l) && Guard(l, AddAllocation(x))
    ensures Safe(Apply(l, AddAllocation(x)))
  {
    var l' := Apply(l, AddAllocation(x));
    AddAllocationLinked(l, x);
    forall y | y in l'.invoices ensures Settled(l', y) {
      PaidAfterAllocation(l, x, y.id);
      InvoiceFound(l.invoices, y);
      assert Settled(l, y);
    }
  }

  lemma PaidAfterRefund(l: Ledger, x: Refund, invoice: Id)
    requires SplitsLinked(l)
    ensures Paid(Apply(l, AddRefund(x)), invoice) == Paid(l, invoice)
  {
    var grown := l.refunds + [x];
    RefundsGrow(l.refunds, x);
    var f := TakenBackTerm(l.allocations, l.refunds, l.reversals, invoice);
    var g := TakenBackTerm(l.allocations, grown, l.reversals, invoice);
    forall s | s in l.refundAllocations ensures f(s) == g(s) {
      assert SplitLinked(l, s);
      assert RefundById(grown, s.refund) == RefundById(l.refunds, s.refund);
    }
    SumSame(l.refundAllocations, f, g);
  }

  lemma RefundsStayCovered(l: Ledger, x: Refund)
    requires SplitsLinked(l) && RefundsCovered(l) && 0 < x.amount && RefundById(l.refunds, x.id).None?
    requires PaymentById(l.payments, x.payment).Some?
    ensures SplitsLinked(Apply(l, AddRefund(x))) && RefundsCovered(Apply(l, AddRefund(x)))
  {
    var l' := Apply(l, AddRefund(x));
    RefundsGrow(l.refunds, x);
    forall s | s in l.refundAllocations ensures SplitLinked(l', s) && SplitTerm(x.id)(s) == 0 {
      assert SplitLinked(l, s);
      assert RefundById(l'.refunds, s.refund) == RefundById(l.refunds, s.refund);
    }
    SumZero(l.refundAllocations, SplitTerm(x.id));
  }

  lemma RefundsAfter(refunds: seq<Refund>, x: Refund, payment: Id)
    ensures Refunds(refunds + [x], payment) == Refunds(refunds, payment) + if x.payment == payment then x.amount else 0
  {
    SumSnoc(refunds, x, RefundsTerm(payment));
  }

  lemma PaymentsStayRefunded(l: Ledger, x: Refund)
    requires UniquePayments(l.payments) && PaymentsCovered(l)
    requires PaymentById(l.payments, x.payment).Some?
    requires Refunds(l.refunds, x.payment) + x.amount <= PaymentById(l.payments, x.payment).value.amount
    ensures PaymentsCovered(Apply(l, AddRefund(x)))
  {
    var l' := Apply(l, AddRefund(x));
    forall p | p in l'.payments
      ensures 0 < p.amount && Allocated(l'.allocations, p.id) <= p.amount && Refunds(l'.refunds, p.id) <= p.amount
    {
      PaymentStaysRefunded(l, x, p);
    }
  }

  lemma PaymentStaysRefunded(l: Ledger, x: Refund, p: Payment)
    requires UniquePayments(l.payments) && p in l.payments && Refunds(l.refunds, p.id) <= p.amount
    requires PaymentById(l.payments, x.payment).Some?
    requires Refunds(l.refunds, x.payment) + x.amount <= PaymentById(l.payments, x.payment).value.amount
    ensures Refunds(l.refunds + [x], p.id) <= p.amount
  {
    RefundsAfter(l.refunds, x, p.id);
    PaymentFound(l.payments, p);
  }

  lemma AddRefundLinked(l: Ledger, x: Refund)
    requires Linked(l) && Guard(l, AddRefund(x))
    ensures Linked(Apply(l, AddRefund(x)))
  {
    RefundsStayCovered(l, x);
    PaymentsStayRefunded(l, x);
  }

  lemma AddRefundSafe(l: Ledger, x: Refund)
    requires Safe(l) && Guard(l, AddRefund(x))
    ensures Safe(Apply(l, AddRefund(x)))
  {
    var l' := Apply(l, AddRefund(x));
    AddRefundLinked(l, x);
    forall y | y in l'.invoices ensures Settled(l', y) {
      PaidAfterRefund(l, x, y.id);
      assert Settled(l, y);
    }
  }

  lemma SplitKeepsCovers(l: Ledger, x: RefundAllocation)
    requires UniqueIds(l) && AllocationsCovered(l) && RefundsCovered(l) && Guard(l, AddSplit(x))
    ensures AllocationsCovered(Apply(l, AddSplit(x))) && RefundsCovered(Apply(l, AddSplit(x)))
  {
    forall a | a in l.allocations ensures Taken(l.refundAllocations + [x], a.id) <= a.amount {
      SumSnoc(l.refundAllocations, x, TakenTerm(a.id));
      AllocationFound(l.allocations, a);
    }
    forall r | r in l.refunds ensures Split(l.refundAllocations + [x], r.id) <= r.amount {
      SumSnoc(l.refundAllocations, x, SplitTerm(r.id));
      RefundFound(l.refunds, r);
    }
  }

  lemma SplitKeepsLinks(l: Ledger, x: RefundAllocation)
    requires SplitsLinked(l) && Guard(l, AddSplit(x))
    ensures SplitsLinked(Apply(l, AddSplit(x)))
  {
    var l' := Apply(l, AddSplit(x));
    forall y | y in l'.refundAllocations ensures SplitLinked(l', y) {
      assert y != x ==> SplitLinked(l, y);
    }
  }

  lemma AddSplitLinked(l: Ledger, x: RefundAllocation)
    requires Linked(l) && Guard(l, AddSplit(x))
    ensures Linked(Apply(l, AddSplit(x)))
  {
    SplitKeepsLinks(l, x);
    SplitKeepsCovers(l, x);
  }

  lemma SplitKeepsSettled(l: Ledger, x: RefundAllocation, y: Invoice)
    requires Settled(l, y) && 0 < x.amount && 0 <= Paid(Apply(l, AddSplit(x)), y.id)
    ensures Settled(Apply(l, AddSplit(x)), y)
  {
    SumSnoc(l.refundAllocations, x, TakenBackTerm(l.allocations, l.refunds, l.reversals, y.id));
  }

  lemma AddSplitSafe(l: Ledger, x: RefundAllocation)
    requires Safe(l) && Guard(l, AddSplit(x))
    ensures Safe(Apply(l, AddSplit(x)))
  {
    var l' := Apply(l, AddSplit(x));
    AddSplitLinked(l, x);
    forall y | y in l'.invoices ensures Settled(l', y) {
      PaidNonNegative(l', y.id);
      SplitKeepsSettled(l, x, y);
    }
  }

  lemma AddNoteSafe(l: Ledger, x: CreditNote)
    requires Safe(l) && Guard(l, AddNote(x))
    ensures Safe(Apply(l, AddNote(x)))
  {
    var l' := Apply(l, AddNote(x));
    AddNoteLinked(l, x);
    forall y | y in l'.invoices ensures Settled(l', y) {
      SumSnoc(l.notes, x, CreditTerm(l.voids, y.id));
      assert Settled(l, y);
    }
  }

  lemma AddNoteLinked(l: Ledger, x: CreditNote)
    requires Linked(l) && 0 < x.amount && NoteById(l.notes, x.id).None? && Receivable(l, x.invoice)
    ensures Linked(Apply(l, AddNote(x)))
  {
    NotesGrow(l.notes, x);
  }

  lemma AddVoidSafe(l: Ledger, x: NoteVoid)
    requires Safe(l) && Guard(l, AddVoid(x))
    ensures Safe(Apply(l, AddVoid(x)))
  {
    var l' := Apply(l, AddVoid(x));
    AddVoidLinked(l, x);
    forall y | y in l'.invoices ensures Settled(l', y) {
      CreditAfterVoid(l, x, y.id);
      assert Settled(l, y);
    }
  }

  lemma AddVoidLinked(l: Ledger, x: NoteVoid)
    requires Linked(l) && NoteById(l.notes, x.note).Some?
    ensures Linked(Apply(l, AddVoid(x)))
  {}

  lemma CreditAfterVoid(l: Ledger, x: NoteVoid, invoice: Id)
    requires NotesLinked(l)
    ensures Credit(Apply(l, AddVoid(x)), invoice) <= Credit(l, invoice)
    ensures Paid(Apply(l, AddVoid(x)), invoice) == Paid(l, invoice)
  {
    VoidsGrow(l.voids, x);
    SumLess(l.notes, CreditTerm(l.voids + [x], invoice), CreditTerm(l.voids, invoice));
  }

  lemma {:induction false} NoteByIdIssued(s: seq<CreditNote>, id: Id, at: int, other: Id)
    ensures NoteById(Map(s, AsIssued(id, at)), other)
            == var n := NoteById(s, other); if n.None? then None else Some(AsIssued(id, at)(n.value))
  {
    if |s| != 0 {
      NoteByIdIssued(s[1..], id, at, other);
      assert Map(s, AsIssued(id, at))[1..] == Map(s[1..], AsIssued(id, at));
    }
  }

  lemma OnlyNote(s: seq<CreditNote>, n: CreditNote, x: CreditNote)
    requires UniqueNotes(s) && n in s && x in s && x.id == n.id
    ensures x == n
  {
    NoteFound(s, x);
    NoteFound(s, n);
  }

  lemma NotesDistinct(s: seq<CreditNote>)
    requires UniqueNotes(s)
    ensures Distinct(s)
  {}

  function AddedIf(n: CreditNote, delta: int): CreditNote -> int {
    (x: CreditNote) => if x == n then delta else 0
  }

  function AfterIssueTerm(voids: seq<NoteVoid>, invoice: Id, id: Id, at: int): CreditNote -> int {
    (x: CreditNote) => CreditTerm(voids, invoice)(AsIssued(id, at)(x))
  }

  lemma IssueChangesTerm(voids: seq<NoteVoid>, invoice: Id, n: CreditNote, at: int, x: CreditNote)
    requires n.status == DraftNote && (x.id == n.id ==> x == n)
    ensures AfterIssueTerm(voids, invoice, n.id, at)(x)
            == CreditTerm(voids, invoice)(x)
               + AddedIf(n, if n.invoice == invoice && !NoteVoided(voids, n.id) then n.amount else 0)(x)
  {
    var y := AsIssued(n.id, at)(x);
    assert y.id == x.id && y.invoice == x.invoice && y.amount == x.amount;
    assert y.status == if x == n then IssuedNote else x.status;
  }

  lemma IssuedTerms(s: seq<CreditNote>, voids: seq<NoteVoid>, n: CreditNote, at: int, invoice: Id, delta: int)
    requires UniqueNotes(s) && n in s && n.status == DraftNote
    requires delta == if n.invoice == invoice && !NoteVoided(voids, n.id) then n.amount else 0
    ensures Sum(s, AfterIssueTerm(voids, invoice, n.id, at)) == Sum(s, CreditTerm(voids, invoice)) + delta
  {
    var f, h, d := CreditTerm(voids, invoice), AfterIssueTerm(voids, invoice, n.id, at), AddedIf(n, delta);
    forall x | x in s ensures h(x) == f(x) + d(x) {
      if x.id == n.id { OnlyNote(s, n, x); }
      IssueChangesTerm(voids, invoice, n, at, x);
    }
    SumAdds(s, f, d, h);
    NotesDistinct(s);
    SumSingle(s, n, delta, d);
  }

  /** Issuing a note adds at most its amount to its own invoice's credit, and nothing elsewhere. */
  lemma CreditAfterIssue(l: Ledger, n: CreditNote, at: int, invoice: Id)
    requires UniqueNotes(l.notes) && n in l.notes && n.status == DraftNote
    ensures Credit(Apply(l, IssueNote(n.id, at)), invoice)
            == Credit(l, invoice) + if n.invoice == invoice && !NoteVoided(l.voids, n.id) then n.amount else 0
  {
    var delta := if n.invoice == invoice && !NoteVoided(l.voids, n.id) then n.amount else 0;
    IssuedTerms(l.notes, l.voids, n, at, invoice, delta);
    SumMap(l.notes, AsIssued(n.id, at), CreditTerm(l.voids, invoice), AfterIssueTerm(l.voids, invoice, n.id, at));
  }

  lemma IssueNoteLinked(l: Ledger, id: Id, at: int)
    requires Linked(l)
    ensures Linked(Apply(l, IssueNote(id, at)))
  {
    var l' := Apply(l, IssueNote(id, at));
    assert NotesLinked(l') by {
      forall v | v in l'.voids ensures NoteById(l'.notes, v.note).Some? { NoteByIdIssued(l.notes, id, at, v.note); }
      forall n | n in l'.notes ensures 0 < n.amount && Receivable(l', n.invoice) {
        var i :| 0 <= i < |l'.notes| && l'.notes[i] == n;
        assert l.notes[i] in l.notes;
      }
    }
    assert UniqueNotes(l'.notes);
  }

  lemma IssueNoteSafe(l: Ledger, id: Id, at: int)
    requires Safe(l) && Guard(l, IssueNote(id, at))
    ensures Safe(Apply(l, IssueNote(id, at)))
  {
    var l' := Apply(l, IssueNote(id, at));
    var n := NoteById(l.notes, id).value;
    IssueNoteLinked(l, id, at);
    forall y | y in l'.invoices ensures Settled(l', y) { IssueKeepsSettled(l, n, at, y); }
  }

  lemma IssueKeepsSettled(l: Ledger, n: CreditNote, at: int, y: Invoice)
    requires UniqueNotes(l.notes) && UniqueInvoices(l.invoices) && n in l.notes && n.status == DraftNote
    requires y in l.invoices && Settled(l, y)
    requires InvoiceById(l.invoices, n.invoice).Some?
    requires 0 < n.amount <= Outstanding(l, InvoiceById(l.invoices, n.invoice).value)
    ensures Settled(Apply(l, IssueNote(n.id, at)), y)
  {
    CreditAfterIssue(l, n, at, y.id);
    InvoiceFound(l.invoices, y);
  }

  lemma {:induction false} InvoiceByIdStatus(s: seq<Invoice>, id: Id, status: InvoiceStatus, other: Id)
    ensures InvoiceById(Map(s, WithStatus(id, status)), other)
            == var x := InvoiceById(s, other); if x.None? then None else Some(WithStatus(id, status)(x.value))
  {
    if |s| != 0 {
      InvoiceByIdStatus(s[1..], id, status, other);
      assert Map(s, WithStatus(id, status))[1..] == Map(s[1..], WithStatus(id, status));
    }
  }

  lemma StatusKeepsReceivable(l: Ledger, id: Id, status: InvoiceStatus, at: int, other: Id)
    requires status != Draft && Receivable(l, other)
    ensures Receivable(Apply(l, SetStatus(id, status, at)), other)
  {
    InvoiceByIdStatus(l.invoices, id, status, other);
  }

  lemma SetStatusLinked(l: Ledger, id: Id, status: InvoiceStatus, at: int)
    requires status != Draft && Linked(l)
    ensures Linked(Apply(l, SetStatus(id, status, at)))
  {
    var l' := Apply(l, SetStatus(id, status, at));
    assert AllocationsLinked(l') by {
      forall a | a in l'.allocations ensures Receivable(l', a.invoice) {
        StatusKeepsReceivable(l, id, status, at, a.invoice);
      }
    }
    assert NotesLinked(l') by {
      forall n | n in l'.notes ensures Receivable(l', n.invoice) {
        StatusKeepsReceivable(l, id, status, at, n.invoice);
      }
    }
    assert SplitsLinked(l') by {
      forall x | x in l'.refundAllocations ensures SplitLinked(l', x) { assert SplitLinked(l, x); }
    }
    assert UniqueInvoices(l'.invoices);
  }

  lemma SetStatusSettled(l: Ledger, id: Id, status: InvoiceStatus, at: int, x: Invoice)
    requires UniqueInvoices(l.invoices) && x in l.invoices && Settled(l, x) && 0 <= Paid(l, id)
    requires Guard(l, SetStatus(id, status, at))
    ensures Settled(Apply(l, SetStatus(id, status, at)), WithStatus(id, status)(x))
  {
    InvoiceFound(l.invoices, x);
  }

  lemma SetStatusSafe(l: Ledger, id: Id, status: InvoiceStatus, at: int)
    requires Safe(l) && Guard(l, SetStatus(id, status, at))
    ensures Safe(Apply(l, SetStatus(id, status, at)))
  {
    var l' := Apply(l, SetStatus(id, status, at));
    SetStatusLinked(l, id, status, at);
    PaidNonNegative(l, id);
    forall y | y in l'.invoices ensures Settled(l', y) {
      var i :| 0 <= i < |l'.invoices| && l'.invoices[i] == y;
      SetStatusSettled(l, id, status, at, l.invoices[i]);
    }
  }

  /** A row that passes both keeps the ledger safe. */
  lemma EffectSafe(l: Ledger, e: Effect)
    requires Safe(l) && Guard(l, e)
    ensures Safe(Apply(l, e))
  {
    match e
    case AddInvoice(x) => AddInvoiceSafe(l, x);
    case SetStatus(id, status, at) => SetStatusSafe(l, id, status, at);
    case AddPayment(x) => AddPaymentSafe(l, x);
    case AddReversal(x) => AddReversalSafe(l, x);
    case AddAllocation(x) => AddAllocationSafe(l, x);
    case AddRefund(x) => AddRefundSafe(l, x);
    case AddSplit(x) => AddSplitSafe(l, x);
    case AddNote(x) => AddNoteSafe(l, x);
    case IssueNote(id, at) => IssueNoteSafe(l, id, at);
    case AddVoid(x) => AddVoidSafe(l, x);
  }

  /** Every row of a list passes the database's and the service's checks at the moment it is written. */
  ghost predicate AllGuarded(l: Ledger, es: seq<Effect>) {
    |es| == 0 || (AllGuarded(l, es[..|es| - 1]) && Guard(ApplyAll(l, es[..|es| - 1]), es[|es| - 1]))
  }

  lemma {:induction false} EffectsSafe(l: Ledger, es: seq<Effect>)
    requires Safe(l) && AllGuarded(l, es)
    ensures Safe(ApplyAll(l, es))
  {
    if |es| != 0 {
      EffectsSafe(l, es[..|es| - 1]);
      EffectSafe(ApplyAll(l, es[..|es| - 1]), es[|es| - 1]);
    }
  }

  // ---------- why the database alone is not enough ----------

  /** An issued invoice of 100, paid in full. */
  const PaidInFull := EmptyLedger.(invoices := [Invoice(1, 1, None, 100, None, Issued, 0)],
                                   payments := [Payment(2, Some(1), Some(1), 100, 0, 0, 1)],
                                   allocations := [Allocation(3, 2, 1, 100, None, 1)])

  lemma OneTerm<T>(x: T, f: T -> int)
    ensures Sum([x], f) == f(x)
  {
    SumSnoc([], x, f);
    assert [] + [x] == [x];
  }

  /** The triggers would let a paid invoice be voided; only the service's check prevents it. */
  lemma DatabaseAloneUnsafe()
    ensures var e := SetStatus(1, Voided, 2);
            Safe(PaidInFull) && DatabaseAccepts(PaidInFull, e) && !ServiceChecked(PaidInFull, e)
              && !Safe(Apply(PaidInFull, e))
  {
    var l := PaidInFull;
    OneTerm(l.allocations[0], GrossTerm(l.reversals, 1));
    OneTerm(l.allocations[0], AllocatedTerm(2));
    assert Paid(l, 1) == 100 && Credit(l, 1) == 0;
    assert Safe(l);
    var l' := Apply(l, SetStatus(1, Voided, 2));
    assert l'.invoices[0].status == Voided && l'.invoices[0].id == 1;
    assert Paid(l', 1) == 100;
    assert !Settled(l', l'.invoices[0]) && l'.invoices[0] in l'.invoices;
  }

  /** A payment of 100 refunded whole, and an issued invoice of 100 with a draft credit note of 200. */
  const RefundedWhole := EmptyLedger.(payments := [Payment(2, None, Some(1), 100, 0, 0, 1)],
                                      refunds := [Refund(4, 2, 100, "left", 1, 2)])
  const OverNoted := EmptyLedger.(invoices := [Invoice(1, 1, None, 100, None, Issued, 0)],
                                  notes := [CreditNote(5, 1, 200, "goodwill", 1, DraftNote, None, 1)])

  /** The database would let a payment be refunded twice over. */
  lemma DatabaseAloneRefundsTwice()
    ensures var e := AddRefund(Refund(6, 2, 100, "again", 2, 3));
            Safe(RefundedWhole) && DatabaseAccepts(RefundedWhole, e) && !ServiceChecked(RefundedWhole, e)
            && !Safe(Apply(RefundedWhole, e))
  {
    var l, x := RefundedWhole, Refund(6, 2, 100, "again", 2, 3);
    RefundedWholeSafe();
    SumSnoc(l.refunds, x, RefundsTerm(2));
    var l' := Apply(l, AddRefund(x));
    assert l'.payments[0] in l'.payments && Refunds(l'.refunds, 2) == 200;
    assert !PaymentsCovered(l');
  }

  lemma RefundedWholeSafe()
    ensures Safe(RefundedWhole) && Refunds(RefundedWhole.refunds, 2) == 100
  {
    OneTerm(RefundedWhole.refunds[0], RefundsTerm(2));
  }

  /** The database would let a credit note be issued beyond its invoice's outstanding amount. */
  lemma DatabaseAloneOvercredits()
    ensures var e := IssueNote(5, 3);
            Safe(OverNoted) && DatabaseAccepts(OverNoted, e) && !ServiceChecked(OverNoted, e)
              && !Safe(Apply(OverNoted, e))
  {
    var l, e := OverNoted, IssueNote(5, 3);
    assert l.notes[0] in l.notes;
    OneTerm(l.notes[0], CreditTerm(l.voids, 1));
    assert Credit(l, 1) == 0 && Paid(l, 1) == 0;
    assert Safe(l);
    CreditAfterIssue(l, l.notes[0], 3, 1);
    var l' := Apply(l, e);
    assert Credit(l', 1) == 200 && Paid(l', 1) == 0;
    assert !Settled(l', l'.invoices[0]) && l'.invoices[0] in l'.invoices;
  }
}
