/** The as-of projection of the ledger, and the cut of a ledger at an instant it agrees with. */
module BillingTimeTravel {
  import opened Collections
  import opened Billing
  import opened BillingSafety

  /** The caller's boundary: `<=` t or `<` t. */
  datatype Boundary = Inclusive(t: int) | Exclusive(t: int)

  predicate Visible(at: int, b: Boundary) {
    match b
    case Inclusive(t) => at <= t
    case Exclusive(t) => at < t
  }

  // ---------- the historical projection, CTE by CTE ----------

  predicate ReversedBy(reversals: seq<Reversal>, b: Boundary, payment: Id) {
    Exists(reversals, (r: Reversal) => r.payment == payment && Visible(r.at, b))
  }

  predicate VoidedBy(voids: seq<NoteVoid>, b: Boundary, note: Id) {
    Exists(voids, (v: NoteVoid) => v.note == note && Visible(v.at, b))
  }

  function GrossRow(l: Ledger, b: Boundary): Allocation -> bool {
    (a: Allocation) => Visible(a.at, b) && !ReversedBy(l.reversals, b, a.payment)
  }

  function InInvoice(invoice: Id): Allocation -> int {
    (a: Allocation) => if a.invoice == invoice then a.amount else 0
  }

  /** historical_gross_paid: one row per invoice that has any. */
  function HistoricalGross(l: Ledger, b: Boundary): map<Id, int> {
    var rows := Filter(l.allocations, GrossRow(l, b));
    map i | i in (set a | a in rows :: a.invoice) :: Sum(rows, InInvoice(i))
  }

  function InvoiceOf(l: Ledger, x: RefundAllocation): Option<Id> {
    var a := AllocationById(l.allocations, x.allocation);
    if a.None? then None else Some(a.value.invoice)
  }

  function RefundRow(l: Ledger, b: Boundary): RefundAllocation -> bool {
    (x: RefundAllocation) =>
      var r := RefundById(l.refunds, x.refund);
      && Visible(x.at, b) && InvoiceOf(l, x).Some? && r.Some? && !ReversedBy(l.reversals, b, r.value.payment)
  }

  function OfInvoice(l: Ledger, invoice: Id): RefundAllocation -> int {
    (x: RefundAllocation) => if InvoiceOf(l, x) == Some(invoice) then x.amount else 0
  }

  /** historical_refunds. */
  function HistoricalRefunds(l: Ledger, b: Boundary): map<Id, int> {
    var rows := Filter(l.refundAllocations, RefundRow(l, b));
    map i | i in (set x | x in rows && InvoiceOf(l, x).Some? :: InvoiceOf(l, x).value) :: Sum(rows, OfInvoice(l, i))
  }

  /** historical_paid: the gross rows, each less the refunds joined to it. */
  function HistoricalPaid(l: Ledger, b: Boundary): map<Id, int> {
    var gross, refunds := HistoricalGross(l, b), HistoricalRefunds(l, b);
    map i | i in gross :: gross[i] - (if i in refunds then refunds[i] else 0)
  }

  function CreditRow(l: Ledger, b: Boundary): CreditNote -> bool {
    (n: CreditNote) =>
      && n.status == IssuedNote && n.issuedAt.Some? && Visible(n.issuedAt.value, b) && !VoidedBy(l.voids, b, n.id)
  }

  function NoteOf(invoice: Id): CreditNote -> int {
    (n: CreditNote) => if n.invoice == invoice then n.amount else 0
  }

  /** historical_credit. */
  function HistoricalCredit(l: Ledger, b: Boundary): map<Id, int> {
    var rows := Filter(l.notes, CreditRow(l, b));
    map i | i in (set n | n in rows :: n.invoice) :: Sum(rows, NoteOf(i))
  }

  /** DISTINCT ON (invoice) .. ORDER BY effective_at DESC. */
  function Latest(h: seq<StatusEntry>, invoice: Id): Option<StatusEntry> {
    if |h| == 0 then None
    else
      var best, last := Latest(h[..|h| - 1], invoice), h[|h| - 1];
      if last.invoice == invoice && (best.None? || best.value.at <= last.at) then Some(last) else best
  }

  function SeenEntry(b: Boundary): StatusEntry -> bool {
    (e: StatusEntry) => Visible(e.at, b)
  }

  /** historical_status, DRAFT when there is none. */
  function HistoricalStatus(h: seq<StatusEntry>, invoice: Id, b: Boundary): InvoiceStatus {
    var e := Latest(Filter(h, SeenEntry(b)), invoice);
    if e.None? then Draft else e.value.status
  }

  function Joined(m: map<Id, int>, invoice: Id): int {
    if invoice in m then m[invoice] else 0
  }

  /** invoiceSelectAt followed by invoiceResponse. */
  function AsOf(l: Ledger, x: Invoice, b: Boundary): Balance {
    InvoiceBalance(HistoricalStatus(l.history, x.id, b), x.total,
                   Joined(HistoricalCredit(l, b), x.id), Joined(HistoricalPaid(l, b), x.id), x.due, b.t)
  }

  // ---------- the ledger as it stood ----------

  function SeenInvoice(b: Boundary): Invoice -> bool { (x: Invoice) => Visible(x.at, b) }
  function SeenPayment(b: Boundary): Payment -> bool { (x: Payment) => Visible(x.at, b) }
  function SeenReversal(b: Boundary): Reversal -> bool { (x: Reversal) => Visible(x.at, b) }
  function SeenAllocation(b: Boundary): Allocation -> bool { (x: Allocation) => Visible(x.at, b) }
  function SeenRefund(b: Boundary): Refund -> bool { (x: Refund) => Visible(x.at, b) }
  function SeenSplit(b: Boundary): RefundAllocation -> bool { (x: RefundAllocation) => Visible(x.at, b) }
  function SeenNote(b: Boundary): CreditNote -> bool { (x: CreditNote) => Visible(x.at, b) }
  function SeenVoid(b: Boundary): NoteVoid -> bool { (x: NoteVoid) => Visible(x.at, b) }

  function StatusThen(h: seq<StatusEntry>, b: Boundary): Invoice -> Invoice {
    (x: Invoice) => x.(status := HistoricalStatus(h, x.id, b))
  }

  function NoteThen(b: Boundary): CreditNote -> CreditNote {
    (n: CreditNote) =>
      if n.issuedAt.Some? && Visible(n.issuedAt.value, b) then n else n.(status := DraftNote, issuedAt := None)
  }

  /** The ledger cut at a boundary: later rows dropped, later status changes undone. */
  function Cut(l: Ledger, b: Boundary): Ledger {
    Ledger(Map(Filter(l.invoices, SeenInvoice(b)), StatusThen(l.history, b)),
           Filter(l.payments, SeenPayment(b)), Filter(l.reversals, SeenReversal(b)),
           Filter(l.allocations, SeenAllocation(b)), Filter(l.refunds, SeenRefund(b)),
           Filter(l.refundAllocations, SeenSplit(b)), Map(Filter(l.notes, SeenNote(b)), NoteThen(b)),
           Filter(l.voids, SeenVoid(b)), Filter(l.history, SeenEntry(b)))
  }

  // ---------- dates that fit ----------

  predicate SplitDated(l: Ledger, x: RefundAllocation) {
    var a, r := AllocationById(l.allocations, x.allocation), RefundById(l.refunds, x.refund);
    a.Some? && r.Some? && a.value.at <= x.at && r.value.at <= x.at
  }

  predicate NoteDated(n: CreditNote) {
    (n.issuedAt.Some? <==> n.status == IssuedNote) && (n.issuedAt.Some? ==> n.at <= n.issuedAt.value)
  }

  predicate InvoiceDated(h: seq<StatusEntry>, x: Invoice) {
    var e := Latest(h, x.id);
    e.Some? && e.value.status == x.status
  }

  ghost predicate Dated(l: Ledger) {
    && (forall x | x in l.refundAllocations :: SplitDated(l, x))
    && (forall n | n in l.notes :: NoteDated(n))
    && (forall x | x in l.invoices :: InvoiceDated(l.history, x))
  }

  // ---------- as-of is live, on the cut ----------

  lemma ReversedInCut(reversals: seq<Reversal>, b: Boundary, payment: Id)
    ensures ReversedBy(reversals, b, payment) <==> Reversed(Filter(reversals, SeenReversal(b)), payment)
  {
    FilterMembers(reversals, SeenReversal(b));
    if ReversedBy(reversals, b, payment) {
      var r :| r in reversals && r.payment == payment && Visible(r.at, b);
      assert r in Filter(reversals, SeenReversal(b));
    }
  }

  lemma VoidedInCut(voids: seq<NoteVoid>, b: Boundary, note: Id)
    ensures VoidedBy(voids, b, note) <==> NoteVoided(Filter(voids, SeenVoid(b)), note)
  {
    FilterMembers(voids, SeenVoid(b));
    if VoidedBy(voids, b, note) {
      var v :| v in voids && v.note == note && Visible(v.at, b);
      assert v in Filter(voids, SeenVoid(b));
    }
  }

  lemma GrossInCut(l: Ledger, b: Boundary, invoice: Id)
    ensures Sum(Filter(l.allocations, GrossRow(l, b)), InInvoice(invoice))
            == Sum(Cut(l, b).allocations, GrossTerm(Cut(l, b).reversals, invoice))
  {
    var gone := Filter(l.reversals, SeenReversal(b));
    var f := (a: Allocation) => if GrossRow(l, b)(a) then InInvoice(invoice)(a) else 0;
    SumFilter(l.allocations, GrossRow(l, b), InInvoice(invoice), f);
    forall a | a in l.allocations ensures f(a) == if SeenAllocation(b)(a) then GrossTerm(gone, invoice)(a) else 0 {
      ReversedInCut(l.reversals, b, a.payment);
    }
    SumFilter(l.allocations, SeenAllocation(b), GrossTerm(gone, invoice), f);
  }

  lemma SplitInCut(l: Ledger, b: Boundary, x: RefundAllocation, invoice: Id)
    requires UniqueAllocations(l.allocations) && UniqueRefunds(l.refunds)
    requires SplitDated(l, x) && Visible(x.at, b)
    ensures RefundRow(l, b)(x) && InvoiceOf(l, x) == Some(invoice)
            <==> TakesFrom(Cut(l, b).allocations, Cut(l, b).refunds, Cut(l, b).reversals, x, invoice)
  {
    var a, r := AllocationById(l.allocations, x.allocation).value, RefundById(l.refunds, x.refund).value;
    var seen, back := Filter(l.allocations, SeenAllocation(b)), Filter(l.refunds, SeenRefund(b));
    FilterMembers(l.allocations, SeenAllocation(b));
    FilterMembers(l.refunds, SeenRefund(b));
    assert a in seen && r in back;
    forall a' | a' in seen && a'.id == a.id ensures a' == a { AllocationFound(l.allocations, a'); }
    forall r' | r' in back && r'.id == r.id ensures r' == r { RefundFound(l.refunds, r'); }
    ReversedInCut(l.reversals, b, r.payment);
  }

  lemma RefundsInCut(l: Ledger, b: Boundary, invoice: Id)
    requires UniqueAllocations(l.allocations) && UniqueRefunds(l.refunds)
    requires forall x | x in l.refundAllocations :: SplitDated(l, x)
    ensures Sum(Filter(l.refundAllocations, RefundRow(l, b)), OfInvoice(l, invoice)) == TakenBack(Cut(l, b), invoice)
  {
    var c := Cut(l, b);
    var g := TakenBackTerm(c.allocations, c.refunds, c.reversals, invoice);
    var f := (x: RefundAllocation) => if RefundRow(l, b)(x) then OfInvoice(l, invoice)(x) else 0;
    SumFilter(l.refundAllocations, RefundRow(l, b), OfInvoice(l, invoice), f);
    forall x | x in l.refundAllocations ensures f(x) == if SeenSplit(b)(x) then g(x) else 0 {
      if Visible(x.at, b) { SplitInCut(l, b, x, invoice); }
    }
    SumFilter(l.refundAllocations, SeenSplit(b), g, f);
  }

  lemma GrossGrouped(l: Ledger, b: Boundary, invoice: Id)
    ensures Joined(HistoricalGross(l, b), invoice) == Sum(Filter(l.allocations, GrossRow(l, b)), InInvoice(invoice))
  {
    if invoice !in HistoricalGross(l, b) { SumZero(Filter(l.allocations, GrossRow(l, b)), InInvoice(invoice)); }
  }

  lemma RefundsGrouped(l: Ledger, b: Boundary, invoice: Id)
    ensures Joined(HistoricalRefunds(l, b), invoice)
            == Sum(Filter(l.refundAllocations, RefundRow(l, b)), OfInvoice(l, invoice))
  {
    if invoice !in HistoricalRefunds(l, b) {
      SumZero(Filter(l.refundAllocations, RefundRow(l, b)), OfInvoice(l, invoice));
    }
  }

  lemma NoGrossNoRefunds(l: Ledger, b: Boundary, invoice: Id)
    requires SplitsLinked(l) && forall x | x in l.refundAllocations :: SplitDated(l, x)
    requires invoice !in HistoricalGross(l, b)
    ensures invoice !in HistoricalRefunds(l, b)
  {
    FilterMembers(l.allocations, GrossRow(l, b));
    FilterMembers(l.refundAllocations, RefundRow(l, b));
    forall x | x in Filter(l.refundAllocations, RefundRow(l, b)) ensures InvoiceOf(l, x) != Some(invoice) {
      assert SplitLinked(l, x) && SplitDated(l, x);
      var a := AllocationById(l.allocations, x.allocation).value;
      assert GrossRow(l, b)(a);
      assert a in Filter(l.allocations, GrossRow(l, b));
    }
  }

  /** The grouped form equals the subquery form: an invoice with no gross row reads 0, and then
      nothing was taken back from it. */
  lemma PaidInCut(l: Ledger, b: Boundary, invoice: Id)
    requires UniqueAllocations(l.allocations) && UniqueRefunds(l.refunds) && SplitsLinked(l)
    requires forall x | x in l.refundAllocations :: SplitDated(l, x)
    ensures Joined(HistoricalPaid(l, b), invoice) == Paid(Cut(l, b), invoice)
  {
    GrossInCut(l, b, invoice);
    RefundsInCut(l, b, invoice);
    GrossGrouped(l, b, invoice);
    RefundsGrouped(l, b, invoice);
    if invoice !in HistoricalGross(l, b) { NoGrossNoRefunds(l, b, invoice); }
  }

  lemma CreditGrouped(l: Ledger, b: Boundary, invoice: Id)
    ensures Joined(HistoricalCredit(l, b), invoice) == Sum(Filter(l.notes, CreditRow(l, b)), NoteOf(invoice))
  {
    if invoice !in HistoricalCredit(l, b) { SumZero(Filter(l.notes, CreditRow(l, b)), NoteOf(invoice)); }
  }

  lemma NoteInCut(voids: seq<NoteVoid>, l: Ledger, b: Boundary, n: CreditNote, invoice: Id)
    requires NoteDated(n) && voids == Filter(l.voids, SeenVoid(b))
    ensures (if CreditRow(l, b)(n) then NoteOf(invoice)(n) else 0)
            == (if SeenNote(b)(n) then CreditTerm(voids, invoice)(NoteThen(b)(n)) else 0)
  {
    VoidedInCut(l.voids, b, n.id);
    var m := NoteThen(b)(n);
    assert m.id == n.id && m.invoice == n.invoice && m.amount == n.amount;
  }

  lemma CreditInCut(l: Ledger, b: Boundary, invoice: Id)
    requires forall n | n in l.notes :: NoteDated(n)
    ensures Joined(HistoricalCredit(l, b), invoice) == Credit(Cut(l, b), invoice)
  {
    var gone := Filter(l.voids, SeenVoid(b));
    var f := (n: CreditNote) => if CreditRow(l, b)(n) then NoteOf(invoice)(n) else 0;
    var g := (n: CreditNote) => CreditTerm(gone, invoice)(NoteThen(b)(n));
    SumFilter(l.notes, CreditRow(l, b), NoteOf(invoice), f);
    forall n | n in l.notes ensures f(n) == if SeenNote(b)(n) then g(n) else 0 {
      NoteInCut(gone, l, b, n, invoice);
    }
    SumFilter(l.notes, SeenNote(b), g, f);
    SumMap(Filter(l.notes, SeenNote(b)), NoteThen(b), CreditTerm(gone, invoice), g);
    CreditGrouped(l, b, invoice);
  }

  /** Reading a ledger as of an instant is reading live the ledger cut at that instant. */
  lemma AsOfIsLiveOfCut(l: Ledger, x: Invoice, b: Boundary)
    requires Linked(l) && Dated(l)
    ensures AsOf(l, x, b) == Live(Cut(l, b), x.(status := HistoricalStatus(l.history, x.id, b)), b.t)
  {
    PaidInCut(l, b, x.id);
    CreditInCut(l, b, x.id);
  }
}
