/** The billing tables, the row operations on them, and what each command of the billing
    service decides: a reply with the rows it writes, or a rejection that writes nothing. */
module Billing {
  import opened Collections
  import opened Ordering

  type Id = nat
  type Key = nat

  /** An amount accepted by the request validators: a positive integer string. */
  type Vnd = x: int | 0 < x witness 1

  datatype InvoiceStatus = Draft | Issued | Voided
  datatype NoteStatus = DraftNote | IssuedNote

  datatype Invoice = Invoice(id: Id, student: Id, enrollment: Option<Id>, total: int, due: Option<int>,
                             status: InvoiceStatus, at: int)
  datatype Payment = Payment(id: Id, invoice: Option<Id>, student: Option<Id>, amount: int, paidBy: nat, key: Key,
                             at: int)
  datatype Reversal = Reversal(payment: Id, reason: string, key: Key, at: int)
  datatype Allocation = Allocation(id: Id, payment: Id, invoice: Id, amount: int, key: Option<Key>, at: int)
  datatype Refund = Refund(id: Id, payment: Id, amount: int, reason: string, key: Key, at: int)
  datatype RefundAllocation = RefundAllocation(refund: Id, allocation: Id, amount: int, at: int)
  datatype CreditNote = CreditNote(id: Id, invoice: Id, amount: int, reason: string, key: Key,
                                   status: NoteStatus, issuedAt: Option<int>, at: int)
  datatype NoteVoid = NoteVoid(note: Id, reason: string, key: Key, at: int)
  datatype StatusEntry = StatusEntry(invoice: Id, status: InvoiceStatus, at: int)

  datatype Ledger = Ledger(
    invoices: seq<Invoice>,
    payments: seq<Payment>,
    reversals: seq<Reversal>,
    allocations: seq<Allocation>,
    refunds: seq<Refund>,
    refundAllocations: seq<RefundAllocation>,
    notes: seq<CreditNote>,
    voids: seq<NoteVoid>,
    history: seq<StatusEntry>)

  const EmptyLedger := Ledger([], [], [], [], [], [], [], [], [])

  // ---------- rows found by id ----------

  function InvoiceById(s: seq<Invoice>, id: Id): (r: Option<Invoice>)
    ensures r.Some? ==> r.value in s && r.value.id == id
    ensures r.None? ==> forall x | x in s :: x.id != id
  {
    Find(s, (x: Invoice) => x.id == id)
  }

  function PaymentById(s: seq<Payment>, id: Id): (r: Option<Payment>)
    ensures r.Some? ==> r.value in s && r.value.id == id
    ensures r.None? ==> forall x | x in s :: x.id != id
  {
    Find(s, (x: Payment) => x.id == id)
  }

  function AllocationById(s: seq<Allocation>, id: Id): (r: Option<Allocation>)
    ensures r.Some? ==> r.value in s && r.value.id == id
    ensures r.None? ==> forall x | x in s :: x.id != id
  {
    Find(s, (x: Allocation) => x.id == id)
  }

  function RefundById(s: seq<Refund>, id: Id): (r: Option<Refund>)
    ensures r.Some? ==> r.value in s && r.value.id == id
    ensures r.None? ==> forall x | x in s :: x.id != id
  {
    Find(s, (x: Refund) => x.id == id)
  }

  function NoteById(s: seq<CreditNote>, id: Id): (r: Option<CreditNote>)
    ensures r.Some? ==> r.value in s && r.value.id == id
    ensures r.None? ==> forall x | x in s :: x.id != id
  {
    Find(s, (x: CreditNote) => x.id == id)
  }

  // ---------- the ledger sums, as the SQL writes them ----------

  predicate Reversed(reversals: seq<Reversal>, payment: Id) {
    Exists(reversals, (r: Reversal) => r.payment == payment)
  }

  predicate NoteVoided(voids: seq<NoteVoid>, note: Id) {
    Exists(voids, (v: NoteVoid) => v.note == note)
  }

  function AllocatedTerm(payment: Id): Allocation -> int {
    (a: Allocation) => if a.payment == payment then a.amount else 0
  }

  /** What has been allocated out of one payment. */
  function Allocated(allocations: seq<Allocation>, payment: Id): int {
    Sum(allocations, AllocatedTerm(payment))
  }

  function RefundsTerm(payment: Id): Refund -> int {
    (r: Refund) => if r.payment == payment then r.amount else 0
  }

  /** What has been refunded out of one payment, allocated or not. */
  function Refunds(refunds: seq<Refund>, payment: Id): int {
    Sum(refunds, RefundsTerm(payment))
  }

  function TakenTerm(allocation: Id): RefundAllocation -> int {
    (x: RefundAllocation) => if x.allocation == allocation then x.amount else 0
  }

  /** What refunds have taken back from one allocation. */
  function Taken(splits: seq<RefundAllocation>, allocation: Id): int {
    Sum(splits, TakenTerm(allocation))
  }

  function SplitTerm(refund: Id): RefundAllocation -> int {
    (x: RefundAllocation) => if x.refund == refund then x.amount else 0
  }

  /** The part of one refund that was taken from allocations. */
  function Split(splits: seq<RefundAllocation>, refund: Id): int {
    Sum(splits, SplitTerm(refund))
  }

  function UnallocatedTerm(splits: seq<RefundAllocation>, payment: Id): Refund -> int {
    (r: Refund) => if r.payment == payment then r.amount - Split(splits, r.id) else 0
  }

  /** The part of a payment's refunds that came out of its unallocated balance. */
  function UnallocatedRefunds(l: Ledger, payment: Id): int {
    Sum(l.refunds, UnallocatedTerm(l.refundAllocations, payment))
  }

  function GrossTerm(reversals: seq<Reversal>, invoice: Id): Allocation -> int {
    (a: Allocation) => if a.invoice == invoice && !Reversed(reversals, a.payment) then a.amount else 0
  }

  predicate TakesFrom(allocations: seq<Allocation>, refunds: seq<Refund>, reversals: seq<Reversal>,
                      x: RefundAllocation, invoice: Id) {
    var a := AllocationById(allocations, x.allocation);
    var r := RefundById(refunds, x.refund);
    && a.Some? && a.value.invoice == invoice
    && r.Some? && !Reversed(reversals, r.value.payment)
  }

  function TakenBackTerm(allocations: seq<Allocation>, refunds: seq<Refund>, reversals: seq<Reversal>, invoice: Id)
    : RefundAllocation -> int
  {
    (x: RefundAllocation) => if TakesFrom(allocations, refunds, reversals, x, invoice) then x.amount else 0
  }

  function TakenBack(l: Ledger, invoice: Id): int {
    Sum(l.refundAllocations, TakenBackTerm(l.allocations, l.refunds, l.reversals, invoice))
  }

  /** ledgerPaidSql: allocations of live payments minus what live refunds took back. */
  function Paid(l: Ledger, invoice: Id): int {
    Sum(l.allocations, GrossTerm(l.reversals, invoice)) - TakenBack(l, invoice)
  }

  function CreditTerm(voids: seq<NoteVoid>, invoice: Id): CreditNote -> int {
    (n: CreditNote) => if n.invoice == invoice && n.status == IssuedNote && !NoteVoided(voids, n.id) then n.amount
      else 0
  }

  /** ledgerCreditSql: issued credit notes that were not voided. */
  function Credit(l: Ledger, invoice: Id): int {
    Sum(l.notes, CreditTerm(l.voids, invoice))
  }

  function Outstanding(l: Ledger, invoice: Invoice): int {
    invoice.total - Credit(l, invoice.id) - Paid(l, invoice.id)
  }

  datatype Effective = As(status: InvoiceStatus) | PaidUp | PartlyPaid | Overdue

  datatype Balance = Balance(paid: int, credit: int, outstanding: int, effective: Effective)

  /** invoiceBalance. */
  function InvoiceBalance(status: InvoiceStatus, total: int, credit: int, paid: int, due: Option<int>, now: int)
    : Balance
  {
    Balance(paid, credit, total - credit - paid,
            if status == Voided then As(Voided)
            else if paid >= total - credit then PaidUp
            else if paid > 0 then PartlyPaid
            else if status == Issued && due.Some? && due.value < now then Overdue
            else As(status))
  }

  /** The live projection of one invoice. */
  function Live(l: Ledger, x: Invoice, now: int): Balance {
    InvoiceBalance(x.status, x.total, Credit(l, x.id), Paid(l, x.id), x.due, now)
  }

  // ---------- row operations ----------

  /** One row operation. Everything but SetStatus and IssueNote is an insert. */
  datatype Effect =
    | AddInvoice(invoice: Invoice)
    | SetStatus(id: Id, status: InvoiceStatus, at: int)
    | AddPayment(payment: Payment)
    | AddReversal(reversal: Reversal)
    | AddAllocation(allocation: Allocation)
    | AddRefund(refund: Refund)
    | AddSplit(split: RefundAllocation)
    | AddNote(note: CreditNote)
    | IssueNote(id: Id, at: int)
    | AddVoid(noteVoid: NoteVoid)

  function WithStatus(id: Id, status: InvoiceStatus): Invoice -> Invoice {
    (x: Invoice) => if x.id == id then x.(status := status) else x
  }

  function AsIssued(id: Id, at: int): CreditNote -> CreditNote {
    (x: CreditNote) => if x.id == id then x.(status := IssuedNote, issuedAt := Some(at)) else x
  }

  function Apply(l: Ledger, e: Effect): Ledger {
    match e
    case AddInvoice(x) => l.(invoices := l.invoices + [x], history := l.history + [StatusEntry(x.id, x.status, x.at)])
    case SetStatus(id, status, at) =>
      l.(invoices := Map(l.invoices, WithStatus(id, status)), history := l.history + [StatusEntry(id, status, at)])
    case AddPayment(x) => l.(payments := l.payments + [x])
    case AddReversal(x) => l.(reversals := l.reversals + [x])
    case AddAllocation(x) => l.(allocations := l.allocations + [x])
    case AddRefund(x) => l.(refunds := l.refunds + [x])
    case AddSplit(x) => l.(refundAllocations := l.refundAllocations + [x])
    case AddNote(x) => l.(notes := l.notes + [x])
    case IssueNote(id, at) => l.(notes := Map(l.notes, AsIssued(id, at)))
    case AddVoid(x) => l.(voids := l.voids + [x])
  }

  function ApplyAll(l: Ledger, es: seq<Effect>): Ledger {
    if |es| == 0 then l else Apply(ApplyAll(l, es[..|es| - 1]), es[|es| - 1])
  }

  lemma ApplySnoc(l: Ledger, es: seq<Effect>, e: Effect)
    ensures ApplyAll(l, es + [e]) == Apply(ApplyAll(l, es), e)
  {
    assert (es + [e])[..|es|] == es;
  }

  // ---------- commands ----------

  // Reasons are as the service trims them before it writes them.

  /** What a command takes from its surroundings: the transaction's timestamp, the students, the
      enrollments with their students, the price in force for an enrollment, the active pricing
      plans with their amounts, and the ULIDs it generates, in order. */
  datatype Env = Env(now: int, students: set<Id>, enrollments: map<Id, Id>, prices: map<Id, nat>, plans: map<Id, nat>,
                     ulid: nat -> Id)

  datatype InvoiceItem = InvoiceItem(quantity: Vnd, unit: nat, enrollment: Option<Id>)
  datatype AppliedDiscount = AppliedDiscount(amount: nat, max: Option<nat>)
  datatype PaymentInput = PaymentInput(amount: Vnd, paidBy: nat, key: Key, student: Option<Id>)
  datatype AllocationInput = AllocationInput(invoice: Id, amount: Vnd)

  /** The discounts of a new invoice are those its enrollment has in force, so none without one. */
  datatype Command =
    | CreateInvoice(student: Id, enrollment: Option<Id>, plan: Option<Id>, due: Option<int>, items: seq<InvoiceItem>,
                    discount: nat, discounts: seq<AppliedDiscount>)
    | IssueInvoice(invoice: Id)
    | VoidInvoice(invoice: Id)
    | RecordPayment(invoice: Id, input: PaymentInput)
    | RecordUnallocated(input: PaymentInput)
    | AllocatePayment(payment: Id, batch: seq<AllocationInput>, key: Key)
    | ReversePayment(payment: Id, reason: string, key: Key)
    | RefundPayment(payment: Id, amount: Vnd, reason: string, key: Key)
    | CreateCreditNote(invoice: Id, amount: Vnd, reason: string, key: Key)
    | IssueCreditNote(note: Id)
    | VoidCreditNote(note: Id, reason: string, key: Key)

  /** ConstraintViolation: the service let the row through and the database refused it. */
  datatype Error = BadRequest | NotFound | Conflict | ConstraintViolation

  /** The id the reply is about, and the rows written. */
  datatype Decision = Accept(reply: Id, effects: seq<Effect>) | Reject(error: Error)

  function ItemTotal(): InvoiceItem -> int {
    (x: InvoiceItem) => x.quantity * x.unit
  }

  function DiscountTotal(): AppliedDiscount -> int {
    (x: AppliedDiscount) => x.amount
  }

  predicate OverMaximum(discounts: seq<AppliedDiscount>) {
    Exists(discounts, (d: AppliedDiscount) => d.max.Some? && d.max.value < d.amount)
  }

  /** requireEnrollment, where one is named. */
  predicate Foreign(env: Env, enrollment: Option<Id>, student: Id) {
    enrollment.Some? && !(enrollment.value in env.enrollments && env.enrollments[enrollment.value] == student)
  }

  /** The items given or, without any, the one the enrollment's price or the plan supplies. */
  function Priced(env: Env, items: seq<InvoiceItem>, enrollment: Option<Id>, plan: Option<Id>): seq<InvoiceItem> {
    if |items| != 0 then items
    else if enrollment.Some? && enrollment.value in env.prices
      then [InvoiceItem(1, env.prices[enrollment.value], enrollment)]
    else if plan.Some? && plan.value in env.plans then [InvoiceItem(1, env.plans[plan.value], enrollment)]
    else []
  }

  function DecideCreateInvoice(env: Env, c: Command): Decision
    requires c.CreateInvoice?
  {
    var items := Priced(env, c.items, c.enrollment, c.plan);
    var subtotal := Sum(items, ItemTotal());
    var discount := c.discount + Sum(c.discounts, DiscountTotal());
    if c.enrollment.Some? && c.plan.Some? then Reject(BadRequest)
    else if c.student !in env.students then Reject(NotFound)
    else if Foreign(env, c.enrollment, c.student) then Reject(BadRequest)
    else if c.plan.Some? && c.plan.value !in env.plans then Reject(BadRequest)
    else if exists x | x in c.items :: Foreign(env, x.enrollment, c.student) then Reject(BadRequest)
    else if |items| == 0 then Reject(BadRequest)
    else if OverMaximum(c.discounts) then Reject(Conflict)
    else if discount > subtotal then Reject(BadRequest)
    else
      var id := env.ulid(0);
      Accept(id, [AddInvoice(Invoice(id, c.student, c.enrollment, subtotal - discount, c.due, Draft, env.now))])
  }

  function DecideStatus(l: Ledger, env: Env, id: Id, status: InvoiceStatus): Decision {
    match InvoiceById(l.invoices, id)
    case None => Reject(NotFound)
    case Some(x) =>
      if status == Issued && x.status != Draft then Reject(Conflict)
      else if status == Voided && x.status != Issued then Reject(Conflict)
      else if status == Voided && Paid(l, id) > 0 then Reject(Conflict)
      else Accept(id, [SetStatus(id, status, env.now)])
  }

  function PaymentByKey(s: seq<Payment>, key: Key): (r: Option<Payment>)
    ensures r.Some? ==> r.value in s && r.value.key == key
    ensures r.None? ==> forall x | x in s :: x.key != key
  {
    Find(s, (x: Payment) => x.key == key)
  }

  /** assertPaymentIdempotency. */
  predicate SamePayment(existing: Payment, invoice: Option<Id>, input: PaymentInput) {
    && existing.invoice == invoice
    && existing.amount == input.amount
    && existing.paidBy == input.paidBy
    && (input.student.Some? ==> existing.student == input.student)
  }

  function DecideRecordPayment(l: Ledger, env: Env, invoice: Id, input: PaymentInput): Decision {
    match PaymentByKey(l.payments, input.key)
    case Some(existing) =>
      if SamePayment(existing, Some(invoice), input) then Accept(existing.id, []) else Reject(Conflict)
    case None =>
      match InvoiceById(l.invoices, invoice)
      case None => Reject(NotFound)
      case Some(inv) =>
        if inv.status != Issued then Reject(Conflict)
        else if input.student.Some? && input.student.value != inv.student then Reject(BadRequest)
        else if input.amount > Outstanding(l, inv) then Reject(Conflict)
        else if inv.student !in env.students then Reject(NotFound)
        else
          var id := env.ulid(0);
          Accept(id, [
            AddPayment(Payment(id, Some(invoice), Some(inv.student), input.amount, input.paidBy, input.key, env.now)),
            AddAllocation(Allocation(env.ulid(1), id, invoice, input.amount, None, env.now))])
  }

  function DecideRecordUnallocated(l: Ledger, env: Env, input: PaymentInput): Decision {
    match PaymentByKey(l.payments, input.key)
    case Some(existing) =>
      if SamePayment(existing, None, input) then Accept(existing.id, []) else Reject(Conflict)
    case None =>
      if input.student.Some? && input.student.value !in env.students then Reject(NotFound)
      else
        var id := env.ulid(0);
        Accept(id, [AddPayment(Payment(id, None, input.student, input.amount, input.paidBy, input.key, env.now))])
  }

  function KeyedRows(l: Ledger, payment: Id, key: Key): seq<Allocation> {
    Filter(l.allocations, (a: Allocation) => a.payment == payment && a.key == Some(key))
  }

  predicate RepeatedInvoice(items: seq<AllocationInput>) {
    exists i, j | 0 <= i < j < |items| :: items[i].invoice == items[j].invoice
  }

  /** The length-plus-membership test of a replayed batch. */
  predicate SameBatch(rows: seq<Allocation>, items: seq<AllocationInput>) {
    && |rows| == |items|
    && forall x | x in items :: Exists(rows, (a: Allocation) => a.invoice == x.invoice && a.amount == x.amount)
  }

  function InputAmount(): AllocationInput -> int {
    (x: AllocationInput) => x.amount
  }

  predicate ByInvoice(x: AllocationInput, y: AllocationInput) {
    x.invoice < y.invoice
  }

  /** The batch in the stable order in which its invoices are locked. */
  function LockOrder(items: seq<AllocationInput>): (r: seq<AllocationInput>)
    ensures |r| == |items|
  {
    Sort(items, ByInvoice)
  }

  function BatchRow(env: Env, payment: Id, key: Key, x: AllocationInput, k: nat): Allocation {
    Allocation(env.ulid(k), payment, x.invoice, x.amount, Some(key), env.now)
  }

  /** The rows for the first k items of a batch. */
  function BatchEffects(env: Env, payment: Id, key: Key, items: seq<AllocationInput>, k: nat): seq<Effect>
    requires k <= |items|
  {
    if k == 0 then []
    else
      BatchEffects(env, payment, key, items, k - 1)
      + [AddAllocation(BatchRow(env, payment, key, items[k - 1], k - 1))]
  }

  /** Whether one item of a batch passes, on the ledger that already holds the earlier items. */
  function ItemError(l: Ledger, payment: Payment, x: AllocationInput): Option<Error> {
    match InvoiceById(l.invoices, x.invoice)
    case None => Some(NotFound)
    case Some(inv) =>
      if inv.status != Issued then Some(Conflict)
      else if payment.student.Some? && payment.student.value != inv.student then Some(Conflict)
      else if x.amount > Outstanding(l, inv) then Some(Conflict)
      else if Exists(l.allocations, (a: Allocation) => a.payment == payment.id && a.invoice == x.invoice)
      then Some(ConstraintViolation)
      else None
  }

  /** The first failure of the batch's items from the k-th on. */
  function BatchError(l: Ledger, env: Env, payment: Payment, key: Key, items: seq<AllocationInput>, k: nat)
    : Option<Error>
    requires k <= |items|
    decreases |items| - k
  {
    if k == |items| then None
    else
      var e := ItemError(l, payment, items[k]);
      if e.Some? then e
      else
        var row := BatchRow(env, payment.id, key, items[k], k);
        BatchError(Apply(l, AddAllocation(row)), env, payment, key, items, k + 1)
  }

  function DecideAllocate(l: Ledger, env: Env, payment: Id, items: seq<AllocationInput>, key: Key): Decision {
    match PaymentById(l.payments, payment)
    case None => Reject(NotFound)
    case Some(p) =>
      var rows := KeyedRows(l, payment, key);
      if Reversed(l.reversals, payment) then Reject(Conflict)
      else if |items| == 0 then Reject(BadRequest)
      else if RepeatedInvoice(items) then Reject(BadRequest)
      else if |rows| != 0 then
        if SameBatch(rows, items) then Accept(payment, []) else Reject(Conflict)
      else if Allocated(l.allocations, payment) + Sum(items, InputAmount()) > p.amount then Reject(Conflict)
      else
        var ordered := LockOrder(items);
        var e := BatchError(l, env, p, key, ordered, 0);
        if e.Some? then Reject(e.value) else Accept(payment, BatchEffects(env, payment, key, ordered, |ordered|))
  }

  function DecideReverse(l: Ledger, env: Env, payment: Id, reason: string, key: Key): Decision {
    if PaymentById(l.payments, payment).None? then Reject(NotFound)
    else
      match Find(l.reversals, (r: Reversal) => r.payment == payment)
      case Some(existing) => if existing.key == key then Accept(payment, []) else Reject(Conflict)
      case None =>
        if reason == "" || Exists(l.reversals, (r: Reversal) => r.key == key) then Reject(ConstraintViolation)
        else Accept(payment, [AddReversal(Reversal(payment, reason, key, env.now))])
  }

  // ---------- the refund waterfall ----------

  predicate Older(a: Allocation, b: Allocation) {
    a.at < b.at || (a.at == b.at && a.id < b.id)
  }

  function AllocationsOf(l: Ledger, payment: Id): seq<Allocation> {
    Filter(l.allocations, (a: Allocation) => a.payment == payment)
  }

  /** A payment's allocations, oldest first. */
  function OldestFirst(l: Ledger, payment: Id): seq<Allocation> {
    Sort(AllocationsOf(l, payment), Older)
  }

  function Available(l: Ledger, a: Allocation): int {
    a.amount - Taken(l.refundAllocations, a.id)
  }

  function AvailableTerm(l: Ledger): Allocation -> int {
    (a: Allocation) => Available(l, a)
  }

  function Clamp(x: int, low: int, high: int): int {
    if x < low then low else if x > high then high else x
  }

  /** What a refund of this amount takes from the k-th oldest allocation: the amount left
      after everything older is exhausted, cut to what this one still holds. */
  function Take(l: Ledger, oldest: seq<Allocation>, amount: int, k: nat): int
    requires k < |oldest|
  {
    Clamp(amount - Sum(oldest[..k], AvailableTerm(l)), 0, Available(l, oldest[k]))
  }

  function Splits(l: Ledger, env: Env, refund: Id, oldest: seq<Allocation>, amount: int, k: nat): seq<Effect>
    requires k <= |oldest|
  {
    if k == 0 then []
    else
      var take := Take(l, oldest, amount, k - 1);
      Splits(l, env, refund, oldest, amount, k - 1)
      + (if take <= 0 then [] else [AddSplit(RefundAllocation(refund, oldest[k - 1].id, take, env.now))])
  }

  function TakeSum(l: Ledger, oldest: seq<Allocation>, amount: int, k: nat): int
    requires k <= |oldest|
  {
    if k == 0 then 0 else TakeSum(l, oldest, amount, k - 1) + Take(l, oldest, amount, k - 1)
  }

  function RefundByKey(s: seq<Refund>, payment: Id, key: Key): (r: Option<Refund>)
    ensures r.Some? ==> r.value in s && r.value.payment == payment && r.value.key == key
    ensures r.None? ==> forall x | x in s :: !(x.payment == payment && x.key == key)
  {
    Find(s, (x: Refund) => x.payment == payment && x.key == key)
  }

  function DecideRefund(l: Ledger, env: Env, payment: Id, amount: Vnd, reason: string, key: Key): Decision {
    match PaymentById(l.payments, payment)
    case None => Reject(NotFound)
    case Some(p) =>
      match RefundByKey(l.refunds, payment, key)
      case Some(existing) =>
        if existing.amount != amount || existing.reason != reason then Reject(Conflict) else Accept(existing.id, [])
      case None =>
        if Reversed(l.reversals, payment) then Reject(Conflict)
        else if Refunds(l.refunds, payment) + amount > p.amount then Reject(Conflict)
        else
          var id := env.ulid(0);
          var oldest := OldestFirst(l, payment);
          var remaining := amount - TakeSum(l, oldest, amount, |oldest|);
          if remaining > 0 && remaining > p.amount - Allocated(l.allocations, payment) - UnallocatedRefunds(l, payment)
          then Reject(Conflict)
          else
            Accept(id, [AddRefund(Refund(id, payment, amount, reason, key, env.now))]
                       + Splits(l, env, id, oldest, amount, |oldest|))
  }

  // ---------- credit notes ----------

  function NoteByKey(s: seq<CreditNote>, key: Key): (r: Option<CreditNote>)
    ensures r.Some? ==> r.value in s && r.value.key == key
    ensures r.None? ==> forall x | x in s :: x.key != key
  {
    Find(s, (x: CreditNote) => x.key == key)
  }

  function DecideCreateNote(l: Ledger, env: Env, invoice: Id, amount: Vnd, reason: string, key: Key): Decision {
    match NoteByKey(l.notes, key)
    case Some(existing) =>
      if existing.invoice != invoice || existing.amount != amount || existing.reason != reason
      then Reject(Conflict) else Accept(existing.id, [])
    case None =>
      match InvoiceById(l.invoices, invoice)
      case None => Reject(NotFound)
      case Some(inv) =>
        if inv.status != Issued then Reject(Conflict)
        else if amount > Outstanding(l, inv) then Reject(Conflict)
        else
          var id := env.ulid(0);
          Accept(id, [AddNote(CreditNote(id, invoice, amount, reason, key, DraftNote, None, env.now))])
  }

  function DecideIssueNote(l: Ledger, env: Env, note: Id): Decision {
    match NoteById(l.notes, note)
    case None => Reject(NotFound)
    case Some(n) =>
      if n.status == IssuedNote then
        if NoteVoided(l.voids, note) then Reject(Conflict) else Accept(note, [])
      else
        match InvoiceById(l.invoices, n.invoice)
        case None => Reject(NotFound)
        case Some(inv) =>
          if inv.status != Issued then Reject(Conflict)
          else if n.amount > Outstanding(l, inv) then Reject(Conflict)
          else Accept(note, [IssueNote(note, env.now)])
  }

  function DecideVoidNote(l: Ledger, env: Env, note: Id, reason: string, key: Key): Decision {
    match NoteById(l.notes, note)
    case None => Reject(NotFound)
    case Some(n) =>
      if n.status != IssuedNote then Reject(Conflict)
      else
        match Find(l.voids, (v: NoteVoid) => v.note == note)
        case Some(existing) => if existing.key == key && existing.reason == reason then Accept(note, [])
          else Reject(Conflict)
        case None =>
          if reason == "" || Exists(l.voids, (v: NoteVoid) => v.key == key) then Reject(ConstraintViolation)
          else Accept(note, [AddVoid(NoteVoid(note, reason, key, env.now))])
  }

  function Decide(l: Ledger, env: Env, c: Command): Decision {
    match c
    case CreateInvoice(_, _, _, _, _, _, _) => DecideCreateInvoice(env, c)
    case IssueInvoice(id) => DecideStatus(l, env, id, Issued)
    case VoidInvoice(id) => DecideStatus(l, env, id, Voided)
    case RecordPayment(invoice, input) => DecideRecordPayment(l, env, invoice, input)
    case RecordUnallocated(input) => DecideRecordUnallocated(l, env, input)
    case AllocatePayment(payment, items, key) => DecideAllocate(l, env, payment, items, key)
    case ReversePayment(payment, reason, key) => DecideReverse(l, env, payment, reason, key)
    case RefundPayment(payment, amount, reason, key) => DecideRefund(l, env, payment, amount, reason, key)
    case CreateCreditNote(invoice, amount, reason, key) => DecideCreateNote(l, env, invoice, amount, reason, key)
    case IssueCreditNote(note) => DecideIssueNote(l, env, note)
    case VoidCreditNote(note, reason, key) => DecideVoidNote(l, env, note, reason, key)
  }

  /** One command as one atomic step: a rejection is rolled back. */
  function Step(l: Ledger, env: Env, c: Command): Ledger {
    match Decide(l, env, c)
    case Accept(_, effects) => ApplyAll(l, effects)
    case Reject(_) => l
  }

  // ---------- runs ----------

  datatype Call = Call(env: Env, command: Command)

  function Run(calls: seq<Call>): Ledger {
    if |calls| == 0 then EmptyLedger
    else Step(Run(calls[..|calls| - 1]), calls[|calls| - 1].env, calls[|calls| - 1].command)
  }

  /** ULIDs are never generated twice. */
  ghost predicate Fresh(l: Ledger, env: Env) {
    && (forall j: nat, k: nat | j != k :: env.ulid(j) != env.ulid(k))
    && (forall k: nat, x | x in l.invoices :: x.id != env.ulid(k))
    && (forall k: nat, x | x in l.payments :: x.id != env.ulid(k))
    && (forall k: nat, x | x in l.allocations :: x.id != env.ulid(k))
    && (forall k: nat, x | x in l.refunds :: x.id != env.ulid(k))
    && (forall k: nat, x | x in l.notes :: x.id != env.ulid(k))
  }

  ghost predicate FreshAt(calls: seq<Call>, i: nat)
    requires i < |calls|
  {
    Fresh(Run(calls[..i]), calls[i].env)
  }

  ghost predicate Advancing(calls: seq<Call>) {
    forall i, j | 0 <= i < j < |calls| :: calls[i].env.now < calls[j].env.now
  }

  /** The clock advances from call to call and generated ids are fresh. */
  ghost predicate Proper(calls: seq<Call>) {
    Advancing(calls) && forall i: nat | i < |calls| :: FreshAt(calls, i)
  }
}
