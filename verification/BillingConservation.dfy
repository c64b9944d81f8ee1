/** Money conservation: what was received is paid into invoices, held as credit, or refunded. */
module BillingConservation {
  import opened Collections
  import opened Billing
  import opened BillingSafety
  import opened BillingRefunds
  import opened BillingRuns

  function LivePayment(reversals: seq<Reversal>, f: Payment -> int): Payment -> int {
    (p: Payment) => if Reversed(reversals, p.id) then 0 else f(p)
  }

  function PaidTerm(l: Ledger): Invoice -> int {
    (x: Invoice) => Paid(l, x.id)
  }

  function Amount(): Payment -> int {
    (p: Payment) => p.amount
  }

  /** studentBilling's row: amount less allocations less unallocated refunds. */
  function AvailableCredit(l: Ledger): Payment -> int {
    (p: Payment) => p.amount - Allocated(l.allocations, p.id) - UnallocatedRefunds(l, p.id)
  }

  function Refunded(l: Ledger): Payment -> int {
    (p: Payment) => Refunds(l.refunds, p.id)
  }

  /** The net of an allocation whose payment is not reversed. */
  function LiveNet(splits: seq<RefundAllocation>, reversals: seq<Reversal>): Allocation -> int {
    (a: Allocation) => if Reversed(reversals, a.payment) then 0 else a.amount - Taken(splits, a.id)
  }

  function NetByInvoice(splits: seq<RefundAllocation>, reversals: seq<Reversal>): Invoice -> Allocation -> int {
    (x: Invoice) => NetTerm(splits, reversals, x.id)
  }

  function InvoiceOfNet(splits: seq<RefundAllocation>, reversals: seq<Reversal>): Allocation -> Invoice -> int {
    (a: Allocation) => (x: Invoice) => NetTerm(splits, reversals, x.id)(a)
  }

  lemma PaidOverInvoices(l: Ledger)
    requires Linked(l)
    ensures Sum(l.invoices, PaidTerm(l)) == Sum(l.allocations, LiveNet(l.refundAllocations, l.reversals))
  {
    var across := NetByInvoice(l.refundAllocations, l.reversals);
    var down := InvoiceOfNet(l.refundAllocations, l.reversals);
    forall x | x in l.invoices ensures PaidTerm(l)(x) == Sum(l.allocations, across(x)) { PaidIsNet(l, x.id); }
    forall a | a in l.allocations
      ensures Sum(l.invoices, down(a)) == LiveNet(l.refundAllocations, l.reversals)(a)
    {
      var x := InvoiceById(l.invoices, a.invoice).value;
      forall y | y in l.invoices && y.id == a.invoice ensures y == x { InvoiceFound(l.invoices, y); }
      SumSingle(l.invoices, x, LiveNet(l.refundAllocations, l.reversals)(a), down(a));
    }
    SumExchange(l.invoices, l.allocations, across, down, PaidTerm(l), LiveNet(l.refundAllocations, l.reversals));
  }

  function NetOfPayment(splits: seq<RefundAllocation>, payment: Id): Allocation -> int {
    (a: Allocation) => if a.payment == payment then a.amount - Taken(splits, a.id) else 0
  }

  function NetAcross(splits: seq<RefundAllocation>, reversals: seq<Reversal>): Payment -> Allocation -> int {
    (p: Payment) => (a: Allocation) =>
      if a.payment == p.id && !Reversed(reversals, p.id) then a.amount - Taken(splits, a.id) else 0
  }

  function NetDown(splits: seq<RefundAllocation>, reversals: seq<Reversal>): Allocation -> Payment -> int {
    (a: Allocation) => (p: Payment) =>
      if a.payment == p.id && !Reversed(reversals, p.id) then a.amount - Taken(splits, a.id) else 0
  }

  function PaidOut(l: Ledger): Payment -> int {
    (p: Payment) => Sum(l.allocations, NetOfPayment(l.refundAllocations, p.id))
  }

  lemma NetOverPayments(l: Ledger)
    requires Linked(l)
    ensures Sum(l.payments, LivePayment(l.reversals, PaidOut(l)))
            == Sum(l.allocations, LiveNet(l.refundAllocations, l.reversals))
  {
    var across, down := NetAcross(l.refundAllocations, l.reversals), NetDown(l.refundAllocations, l.reversals);
    var group, w := LivePayment(l.reversals, PaidOut(l)), LiveNet(l.refundAllocations, l.reversals);
    forall p | p in l.payments ensures group(p) == Sum(l.allocations, across(p)) {
      if Reversed(l.reversals, p.id) {
        SumZero(l.allocations, across(p));
      } else {
        SumSame(l.allocations, NetOfPayment(l.refundAllocations, p.id), across(p));
      }
    }
    forall a | a in l.allocations ensures Sum(l.payments, down(a)) == w(a) {
      var p := PaymentById(l.payments, a.payment).value;
      forall q | q in l.payments && q.id == a.payment ensures q == p { PaymentFound(l.payments, q); }
      SumSingle(l.payments, p, w(a), down(a));
    }
    SumExchange(l.payments, l.allocations, across, down, group, w);
  }

  /** One payment: its amount is what it pays, what it still offers, and what it refunded. */
  lemma PaymentSplits(l: Ledger, p: Payment)
    requires UniqueIds(l) && SplitsLinked(l)
    ensures p.amount == PaidOut(l)(p) + AvailableCredit(l)(p) + Refunded(l)(p)
  {
    UnallocatedIsRest(l, p.id);
    SumAdds(l.allocations, NetOfPayment(l.refundAllocations, p.id), TakenOfPayment(l.refundAllocations, p.id),
            AllocatedTerm(p.id));
  }

  lemma Conservation(l: Ledger)
    requires Linked(l)
    ensures Sum(l.invoices, PaidTerm(l))
            + Sum(l.payments, LivePayment(l.reversals, AvailableCredit(l)))
            + Sum(l.payments, LivePayment(l.reversals, Refunded(l)))
            == Sum(l.payments, LivePayment(l.reversals, Amount()))
  {
    PaidOverInvoices(l);
    NetOverPayments(l);
    var r := l.reversals;
    var both := (p: Payment) => LivePayment(r, AvailableCredit(l))(p) + LivePayment(r, Refunded(l))(p);
    SumAdds(l.payments, LivePayment(r, AvailableCredit(l)), LivePayment(r, Refunded(l)), both);
    forall p | p in l.payments
      ensures LivePayment(r, Amount())(p) == LivePayment(r, PaidOut(l))(p) + both(p)
    {
      PaymentSplits(l, p);
    }
    SumAdds(l.payments, LivePayment(r, PaidOut(l)), both, LivePayment(r, Amount()));
  }

  /** In every reachable state, ledger-paid over all invoices plus available credit plus
      refunds of the payments not reversed is the total of those payments. */
  lemma RunConserves(calls: seq<Call>)
    requires Proper(calls)
    ensures var l := Run(calls);
            Sum(l.invoices, PaidTerm(l))
            + Sum(l.payments, LivePayment(l.reversals, AvailableCredit(l)))
            + Sum(l.payments, LivePayment(l.reversals, Refunded(l)))
            == Sum(l.payments, LivePayment(l.reversals, Amount()))
  {
    RunSafe(calls);
    Conservation(Run(calls));
  }

  // ---------- a student's credit, computed in two ways ----------

  function OfStudent(l: Ledger, student: Id): seq<Payment> {
    Filter(l.payments, (p: Payment) => p.student == Some(student))
  }

  /** studentBilling: a reduce over the student's payment rows that skips reversed ones. */
  function StudentCredit(l: Ledger, student: Id): int {
    Sum(OfStudent(l, student), LivePayment(l.reversals, AvailableCredit(l)))
  }

  function Grouped(l: Ledger, student: Id): seq<Payment> {
    Filter(l.payments, (p: Payment) => p.student == Some(student) && !Reversed(l.reversals, p.id))
  }

  function AllocatedOf(l: Ledger): Payment -> int {
    (p: Payment) => Allocated(l.allocations, p.id)
  }

  function UnallocatedOf(l: Ledger): Payment -> int {
    (p: Payment) => UnallocatedRefunds(l, p.id)
  }

  /** customerCredit: the student's group of live payments, three separate sums, kept HAVING > 0. */
  function GroupedCredit(l: Ledger, student: Id): Option<int> {
    var rows := Grouped(l, student);
    var credit := Sum(rows, Amount()) - Sum(rows, AllocatedOf(l)) - Sum(rows, UnallocatedOf(l));
    if |rows| == 0 || credit <= 0 then None else Some(credit)
  }

  lemma GroupedSum(l: Ledger, rows: seq<Payment>)
    ensures Sum(rows, AvailableCredit(l))
            == Sum(rows, Amount()) - Sum(rows, AllocatedOf(l)) - Sum(rows, UnallocatedOf(l))
  {
    var less := (p: Payment) => p.amount - Allocated(l.allocations, p.id);
    SumAdds(rows, less, AllocatedOf(l), Amount());
    SumAdds(rows, AvailableCredit(l), UnallocatedOf(l), less);
  }

  lemma StudentSum(l: Ledger, student: Id)
    ensures StudentCredit(l, student) == Sum(Grouped(l, student), AvailableCredit(l))
  {
    var live := (p: Payment) => p.student == Some(student) && !Reversed(l.reversals, p.id);
    var f := (p: Payment) => if live(p) then AvailableCredit(l)(p) else 0;
    SumFilter(l.payments, (p: Payment) => p.student == Some(student), LivePayment(l.reversals, AvailableCredit(l)), f);
    SumFilter(l.payments, live, AvailableCredit(l), f);
  }

  /** customerCredit lists a student exactly when studentBilling's credit is positive, and
      then with that very amount. */
  lemma CreditAgrees(l: Ledger, student: Id)
    ensures GroupedCredit(l, student) == if StudentCredit(l, student) > 0 then Some(StudentCredit(l, student)) else None
  {
    StudentSum(l, student);
    GroupedSum(l, Grouped(l, student));
  }
}
