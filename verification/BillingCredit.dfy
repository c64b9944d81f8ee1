/** A payment's available credit: how each command moves it, a run that makes it negative, and
    exactly which runs never do. */
module BillingCredit {
  import opened Collections
  import opened Ordering
  import opened Billing
  import opened BillingSafety
  import opened BillingRefunds
  import opened BillingRuns
  import opened BillingReplay
  import opened BillingConservation

  // ---------- row by row ----------

  lemma CreditAfterAllocation(l: Ledger, x: Allocation, p: Payment)
    ensures AvailableCredit(Apply(l, AddAllocation(x)))(p)
            == AvailableCredit(l)(p) - if x.payment == p.id then x.amount else 0
  {
    SumSnoc(l.allocations, x, AllocatedTerm(p.id));
  }

  lemma CreditAfterRefund(l: Ledger, x: Refund, p: Payment)
    requires SplitsLinked(l) && RefundById(l.refunds, x.id).None?
    ensures AvailableCredit(Apply(l, AddRefund(x)))(p) == AvailableCredit(l)(p) - if x.payment == p.id then x.amount
            else 0
  {
    SumSnoc(l.refunds, x, UnallocatedTerm(l.refundAllocations, p.id));
    forall s | s in l.refundAllocations ensures SplitTerm(x.id)(s) == 0 { assert SplitLinked(l, s); }
    SumZero(l.refundAllocations, SplitTerm(x.id));
  }

  function TakenFor(r: Refund, payment: Id, amount: int): Refund -> int {
    (q: Refund) => if q == r && r.payment == payment then amount else 0
  }

  lemma CreditAfterSplit(l: Ledger, x: RefundAllocation, r: Refund, p: Payment)
    requires UniqueRefunds(l.refunds) && r in l.refunds && r.id == x.refund
    ensures AvailableCredit(Apply(l, AddSplit(x)))(p) == AvailableCredit(l)(p) + if r.payment == p.id then x.amount
            else 0
  {
    var before, after := l.refundAllocations, l.refundAllocations + [x];
    var taken := TakenFor(r, p.id, x.amount);
    forall q | q in l.refunds ensures UnallocatedTerm(before, p.id)(q) == UnallocatedTerm(after, p.id)(q) + taken(q) {
      SumSnoc(before, x, SplitTerm(q.id));
      RefundFound(l.refunds, q);
      RefundFound(l.refunds, r);
    }
    SumAdds(l.refunds, UnallocatedTerm(after, p.id), taken, UnallocatedTerm(before, p.id));
    assert Distinct(l.refunds);
    SumSingle(l.refunds, r, if r.payment == p.id then x.amount else 0, taken);
  }

  // ---------- batches and refunds ----------

  lemma {:induction false} CreditAfterBatch(l: Ledger, env: Env, payment: Id, key: Key, items: seq<AllocationInput>,
                                            k: nat, p: Payment)
    requires k <= |items|
    ensures AvailableCredit(ApplyAll(l, BatchEffects(env, payment, key, items, k)))(p)
            == AvailableCredit(l)(p) - if payment == p.id then Sum(items[..k], InputAmount()) else 0
  {
    if k != 0 {
      var es, row := BatchEffects(env, payment, key, items, k - 1), BatchRow(env, payment, key, items[k - 1], k - 1);
      CreditAfterBatch(l, env, payment, key, items, k - 1, p);
      ApplySnoc(l, es, AddAllocation(row));
      CreditAfterAllocation(ApplyAll(l, es), row, p);
      SumPrefix(items, k - 1);
    }
  }

  /** The ledger lk holds the refund and its splits over the k oldest: what they left of the credit. */
  ghost predicate SplitCredit(l: Ledger, lk: Ledger, refund: Refund, oldest: seq<Allocation>, k: nat, p: Payment)
    requires k <= |oldest|
  {
    && lk.refunds == l.refunds + [refund]
    && AvailableCredit(lk)(p)
       == AvailableCredit(l)(p) - if refund.payment == p.id then refund.amount - TakeSum(l, oldest, refund.amount, k)
         else 0
  }

  lemma SplitCreditNext(l: Ledger, env: Env, refund: Refund, oldest: seq<Allocation>, k: nat, p: Payment,
                        es: seq<Effect>, es': seq<Effect>)
    requires 0 < k <= |oldest| && UniqueRefunds(l.refunds) && RefundById(l.refunds, refund.id).None?
    requires 0 <= Take(l, oldest, refund.amount, k - 1) && SplitCredit(l, ApplyAll(l, es), refund, oldest, k - 1, p)
    requires var take := Take(l, oldest, refund.amount, k - 1);
             es' == es + if take <= 0 then []
               else [AddSplit(RefundAllocation(refund.id, oldest[k - 1].id, take, env.now))]
    ensures SplitCredit(l, ApplyAll(l, es'), refund, oldest, k, p)
  {
    RefundsStayUnique(l.refunds, refund);
    SplitGivesBack(l, env, refund, oldest[k - 1], Take(l, oldest, refund.amount, k - 1), es, p);
  }

  /** The splits of a refund give back to credit what they take from allocations. */
  lemma {:induction false} CreditAfterSplits(l: Ledger, env: Env, refund: Refund, oldest: seq<Allocation>, k: nat,
                                             p: Payment)
    requires k <= |oldest| && UniqueRefunds(l.refunds) && SplitsLinked(l) && RefundById(l.refunds, refund.id).None?
    requires 0 < refund.amount && Holding(l, oldest)
    ensures SplitCredit(l, ApplyAll(l, RefundRows(l, env, refund, oldest, k)), refund, oldest, k, p)
  {
    if k == 0 {
      assert [AddRefund(refund)] + [] == [AddRefund(refund)];
      OneEffect(l, AddRefund(refund));
      CreditAfterRefund(l, refund, p);
    } else {
      CreditAfterSplits(l, env, refund, oldest, k - 1, p);
      RefundRowsNext(l, env, refund, oldest, k - 1);
      assert oldest[k - 1] in oldest;
      SplitCreditNext(l, env, refund, oldest, k, p, RefundRows(l, env, refund, oldest, k - 1),
                      RefundRows(l, env, refund, oldest, k));
    }
  }

  lemma RefundsStayUnique(refunds: seq<Refund>, x: Refund)
    requires UniqueRefunds(refunds) && RefundById(refunds, x.id).None?
    ensures UniqueRefunds(refunds + [x])
  {}

  lemma SplitGivesBack(l: Ledger, env: Env, refund: Refund, a: Allocation, take: int, es: seq<Effect>, p: Payment)
    requires UniqueRefunds(ApplyAll(l, es).refunds) && refund in ApplyAll(l, es).refunds && 0 <= take
    ensures var rows := es + if take <= 0 then [] else [AddSplit(RefundAllocation(refund.id, a.id, take, env.now))];
            && ApplyAll(l, rows).refunds == ApplyAll(l, es).refunds
            && AvailableCredit(ApplyAll(l, rows))(p)
               == AvailableCredit(ApplyAll(l, es))(p) + if refund.payment == p.id then take else 0
  {
    if take > 0 {
      var x := RefundAllocation(refund.id, a.id, take, env.now);
      ApplySnoc(l, es, AddSplit(x));
      CreditAfterSplit(ApplyAll(l, es), x, refund, p);
    } else {
      assert es + [] == es;
    }
  }

  // ---------- what one command takes from a payment's credit ----------

  predicate FirstBatch(l: Ledger, c: Command) {
    c.AllocatePayment? && |KeyedRows(l, c.payment, c.key)| == 0
  }

  predicate FirstRefund(l: Ledger, c: Command) {
    c.RefundPayment? && RefundByKey(l.refunds, c.payment, c.key).None?
  }

  /** A first-time batch takes its total; a first-time refund what the allocations do not give back. */
  function Drawn(l: Ledger, c: Command, payment: Id): int {
    if FirstBatch(l, c) && c.payment == payment then Sum(c.batch, InputAmount())
    else if FirstRefund(l, c) && c.payment == payment then
      c.amount - TakeSum(l, OldestFirst(l, payment), c.amount, |OldestFirst(l, payment)|)
    else 0
  }

  lemma BatchDraws(l: Ledger, env: Env, c: Command, p: Payment)
    requires FirstBatch(l, c) && Decide(l, env, c).Accept?
    ensures AvailableCredit(Step(l, env, c))(p) == AvailableCredit(l)(p) - Drawn(l, c, p.id)
  {
    var items := LockOrder(c.batch);
    CreditAfterBatch(l, env, c.payment, c.key, items, |items|, p);
    assert items[..|items|] == items;
    SumSort(c.batch, ByInvoice, InputAmount());
  }

  lemma RefundDraws(l: Ledger, env: Env, c: Command, p: Payment)
    requires Linked(l) && Fresh(l, env) && FirstRefund(l, c) && Decide(l, env, c).Accept?
    ensures AvailableCredit(Step(l, env, c))(p) == AvailableCredit(l)(p) - Drawn(l, c, p.id)
  {
    var refund, oldest := Refund(env.ulid(0), c.payment, c.amount, c.reason, c.key, env.now), OldestFirst(l, c.payment);
    OldestHolding(l, c.payment);
    CreditAfterSplits(l, env, refund, oldest, |oldest|, p);
  }

  lemma PaymentDraws(l: Ledger, env: Env, c: Command, p: Payment)
    requires Linked(l) && Fresh(l, env) && p in l.payments && c.RecordPayment? && Decide(l, env, c).Accept?
    ensures AvailableCredit(Step(l, env, c))(p) == AvailableCredit(l)(p)
  {
    var es := Decide(l, env, c).effects;
    if |es| != 0 {
      TwoEffects(l, es[0], es[1]);
      assert es == [es[0], es[1]];
      CreditAfterAllocation(Apply(l, es[0]), es[1].allocation, p);
    }
  }

  /** All other commands write at most one row. */
  lemma AtMostOneRow(l: Ledger, env: Env, c: Command)
    requires !c.AllocatePayment? && !c.RefundPayment? && !c.RecordPayment? && Decide(l, env, c).Accept?
    ensures var es := Decide(l, env, c).effects;
            |es| <= 1 && Step(l, env, c) == if |es| == 0 then l else Apply(l, es[0])
  {
    var es := Decide(l, env, c).effects;
    if |es| != 0 { OneEffect(l, es[0]); }
  }

  lemma QuietTables(l: Ledger, env: Env, c: Command)
    requires !FirstBatch(l, c) && !FirstRefund(l, c) && !c.RecordPayment? && Decide(l, env, c).Accept?
    ensures var l' := Step(l, env, c);
            l'.allocations == l.allocations && l'.refunds == l.refunds && l'.refundAllocations == l.refundAllocations
  {
    if !c.AllocatePayment? && !c.RefundPayment? { AtMostOneRow(l, env, c); }
  }

  /** Every command moves a payment's available credit by exactly this much. */
  lemma CreditMoves(l: Ledger, env: Env, c: Command, p: Payment)
    requires Safe(l) && Fresh(l, env) && p in l.payments && Decide(l, env, c).Accept?
    ensures AvailableCredit(Step(l, env, c))(p) == AvailableCredit(l)(p) - Drawn(l, c, p.id)
  {
    if FirstBatch(l, c) {
      BatchDraws(l, env, c, p);
    } else if FirstRefund(l, c) {
      RefundDraws(l, env, c, p);
    } else if c.RecordPayment? {
      PaymentDraws(l, env, c, p);
    } else {
      QuietTables(l, env, c);
    }
  }

  // ---------- which runs keep it from going negative ----------

  ghost predicate CreditHeld(l: Ledger) {
    forall p | p in l.payments && !Reversed(l.reversals, p.id) :: 0 <= AvailableCredit(l)(p)
  }

  /** The check on a first-time batch with the term it leaves out: the refunds that came out of the
      payment's unallocated balance. */
  predicate WithinCredit(l: Ledger, c: Command) {
    FirstBatch(l, c) && PaymentById(l.payments, c.payment).Some? ==>
      Allocated(l.allocations, c.payment) + Sum(c.batch, InputAmount()) + UnallocatedRefunds(l, c.payment)
      <= PaymentById(l.payments, c.payment).value.amount
  }

  lemma NewPaymentHolds(l: Ledger, p: Payment)
    requires Linked(l) && PaymentById(l.payments, p.id).None?
    ensures AvailableCredit(Apply(l, AddPayment(p)))(p) == p.amount
  {
    SumZero(l.allocations, AllocatedTerm(p.id));
    SumZero(l.refunds, UnallocatedTerm(l.refundAllocations, p.id));
  }

  lemma NewPaymentsCredit(l: Ledger, env: Env, c: Command, p: Payment)
    requires Linked(l) && Fresh(l, env) && Decide(l, env, c).Accept?
    requires p in Step(l, env, c).payments && p !in l.payments
    ensures 0 <= AvailableCredit(Step(l, env, c))(p)
  {
    PaymentsAfter(l, env, c);
    NewPaymentHolds(l, p);
    if c.RecordPayment? { AllocatedAtOnce(l, env, c, p); } else { AtMostOneRow(l, env, c); }
  }

  /** A payment recorded for an invoice is allocated to it whole. */
  lemma AllocatedAtOnce(l: Ledger, env: Env, c: Command, p: Payment)
    requires c.RecordPayment? && Decide(l, env, c).Accept? && |Decide(l, env, c).effects| != 0
    requires p == Decide(l, env, c).effects[0].payment && AvailableCredit(Apply(l, AddPayment(p)))(p) == p.amount
    ensures AvailableCredit(Step(l, env, c))(p) == 0
  {
    var es := Decide(l, env, c).effects;
    TwoEffects(l, es[0], es[1]);
    CreditAfterAllocation(Apply(l, es[0]), es[1].allocation, p);
  }

  lemma RefundKeepsPayments(l: Ledger, env: Env, payment: Id, amount: Vnd, reason: string, key: Key)
    requires FirstRefund(l, RefundPayment(payment, amount, reason, key))
             && DecideRefund(l, env, payment, amount, reason, key).Accept?
    ensures var l' := Step(l, env, RefundPayment(payment, amount, reason, key));
            l'.payments == l.payments && l'.reversals == l.reversals
  {
    var refund, oldest := Refund(env.ulid(0), payment, amount, reason, key, env.now), OldestFirst(l, payment);
    var splits := Splits(l, env, refund.id, oldest, amount, |oldest|);
    SplitsAddNoAllocation(l, env, refund.id, oldest, amount, |oldest|);
    SplitsKeepRefunds(l, [AddRefund(refund)], splits);
    OneEffect(l, AddRefund(refund));
  }

  predicate PaysOrReverses(c: Command) {
    c.RecordPayment? || c.RecordUnallocated? || c.ReversePayment?
  }

  lemma PaymentsKept(l: Ledger, env: Env, c: Command)
    requires !PaysOrReverses(c) && Decide(l, env, c).Accept?
    ensures Step(l, env, c).payments == l.payments && Step(l, env, c).reversals == l.reversals
  {
    match c
    case AllocatePayment(payment, batch, key) =>
      if FirstBatch(l, c) { BatchTable(l, env, payment, key, LockOrder(batch), |LockOrder(batch)|); }
    case RefundPayment(payment, amount, reason, key) =>
      if FirstRefund(l, c) { RefundKeepsPayments(l, env, payment, amount, reason, key); }
    case _ => AtMostOneRow(l, env, c);
  }

  /** Only recording a payment adds one. */
  lemma PaymentsAfter(l: Ledger, env: Env, c: Command)
    requires Decide(l, env, c).Accept?
    ensures var d, after := Decide(l, env, c), Step(l, env, c).payments;
            if (c.RecordPayment? || c.RecordUnallocated?) && |d.effects| != 0
            then d.effects[0].AddPayment? && after == l.payments + [d.effects[0].payment]
              && d.effects[0].payment.id == env.ulid(0)
            else after == l.payments
  {
    var es := Decide(l, env, c).effects;
    if !PaysOrReverses(c) {
      PaymentsKept(l, env, c);
    } else if c.RecordPayment? {
      if |es| != 0 { TwoEffects(l, es[0], es[1]); }
    } else {
      AtMostOneRow(l, env, c);
    }
  }

  lemma ReversalsAfter(l: Ledger, env: Env, c: Command)
    requires Decide(l, env, c).Accept?
    ensures var d, after := Decide(l, env, c), Step(l, env, c).reversals;
            if c.ReversePayment? && |d.effects| != 0
              then d.effects[0].AddReversal? && after == l.reversals + [d.effects[0].reversal]
            else after == l.reversals
  {
    var es := Decide(l, env, c).effects;
    if !PaysOrReverses(c) {
      PaymentsKept(l, env, c);
    } else if c.RecordPayment? {
      if |es| != 0 { TwoEffects(l, es[0], es[1]); }
    } else {
      AtMostOneRow(l, env, c);
    }
  }

  lemma ReversedStays(l: Ledger, env: Env, c: Command, payment: Id)
    requires Decide(l, env, c).Accept? && Reversed(l.reversals, payment)
    ensures Reversed(Step(l, env, c).reversals, payment)
  {
    ReversalsAfter(l, env, c);
    var es := Decide(l, env, c).effects;
    if c.ReversePayment? && |es| != 0 { ReversalsGrow(l.reversals, es[0].reversal); }
  }

  /** What is drawn fits, for a batch by the fuller check, for a refund always. */
  lemma DrawnFits(l: Ledger, env: Env, c: Command, p: Payment)
    requires Safe(l) && p in l.payments && Decide(l, env, c).Accept? && WithinCredit(l, c) && 0 <= AvailableCredit(l)(p)
    ensures Drawn(l, c, p.id) <= AvailableCredit(l)(p)
  {
    PaymentFound(l.payments, p);
    if FirstRefund(l, c) && c.payment == p.id { LastCheckNeverFails(l, p, c.amount); }
  }

  lemma StepHolds(l: Ledger, env: Env, c: Command)
    requires Safe(l) && Fresh(l, env) && CreditHeld(l) && (Decide(l, env, c).Accept? ==> WithinCredit(l, c))
    ensures CreditHeld(Step(l, env, c))
  {
    var l' := Step(l, env, c);
    if Decide(l, env, c).Accept? {
      forall p | p in l'.payments && !Reversed(l'.reversals, p.id) ensures 0 <= AvailableCredit(l')(p) {
        if p in l.payments {
          if Reversed(l.reversals, p.id) { ReversedStays(l, env, c, p.id); }
          CreditMoves(l, env, c, p);
          DrawnFits(l, env, c, p);
        } else {
          NewPaymentsCredit(l, env, c, p);
        }
      }
    }
  }

  /** A batch that passes the check but not the fuller one leaves its payment's credit negative. */
  lemma OverdrawnBatch(l: Ledger, env: Env, c: Command)
    requires Safe(l) && Fresh(l, env) && Decide(l, env, c).Accept? && !WithinCredit(l, c)
    ensures !CreditHeld(Step(l, env, c))
  {
    var p, l' := PaymentById(l.payments, c.payment).value, Step(l, env, c);
    BatchDraws(l, env, c, p);
    PaymentsKept(l, env, c);
    assert !Reversed(l.reversals, p.id);
    assert p in l'.payments && AvailableCredit(l')(p) < 0;
  }

  /** The i-th call, if accepted, stays within the credit of its payment. */
  ghost predicate CallWithinCredit(calls: seq<Call>, i: nat)
    requires i < |calls|
  {
    Decide(Run(calls[..i]), calls[i].env, calls[i].command).Accept? ==> WithinCredit(Run(calls[..i]), calls[i].command)
  }

  ghost predicate CreditHeldAt(calls: seq<Call>, k: nat)
    requires k <= |calls|
  {
    CreditHeld(Run(calls[..k]))
  }

  lemma HeldNext(calls: seq<Call>, k: nat)
    requires Proper(calls) && k < |calls| && CreditHeldAt(calls, k)
    ensures CreditHeldAt(calls, k + 1) <==> CallWithinCredit(calls, k)
  {
    RunNext(calls, k);
    var l, env, c := Run(calls[..k]), calls[k].env, calls[k].command;
    if CallWithinCredit(calls, k) { StepHolds(l, env, c); } else { OverdrawnBatch(l, env, c); }
  }

  lemma {:induction false} HeldUpTo(calls: seq<Call>, k: nat)
    requires Proper(calls) && k <= |calls| && forall i: nat | i < k :: CallWithinCredit(calls, i)
    ensures CreditHeldAt(calls, k)
  {
    if k == 0 {
      assert calls[..0] == [];
    } else {
      HeldUpTo(calls, k - 1);
      HeldNext(calls, k - 1);
    }
  }

  /** Along a run no live payment's available credit is ever negative if and only if every accepted
      first-time batch satisfied the fuller check: refunds, reversals and all else never break it. */
  lemma CreditHeldExactly(calls: seq<Call>)
    requires Proper(calls)
    ensures (forall k: nat | k <= |calls| :: CreditHeldAt(calls, k))
            <==> (forall i: nat | i < |calls| :: CallWithinCredit(calls, i))
  {
    if forall k: nat | k <= |calls| :: CreditHeldAt(calls, k) {
      forall i: nat | i < |calls| ensures CallWithinCredit(calls, i) {
        assert CreditHeldAt(calls, i) && CreditHeldAt(calls, i + 1);
        HeldNext(calls, i);
      }
    }
    if forall i: nat | i < |calls| :: CallWithinCredit(calls, i) {
      forall k: nat | k <= |calls| ensures CreditHeldAt(calls, k) { HeldUpTo(calls, k); }
    }
  }

  // ---------- a run that overdraws ----------

  /** The i-th transaction of a run over one student, at time i, with ids from 10 * i on. */
  function At(i: nat): Env {
    Env(i, {1}, map[], map[], map[], (k: nat) => 10 * i + k)
  }

  /** A payment of 100 is recorded unallocated, refunded whole, and then allocated whole. */
  const Overdrawing: seq<Call> := [
    Call(At(1), CreateInvoice(1, None, None, None, [InvoiceItem(1, 100, None)], 0, [])),
    Call(At(2), IssueInvoice(10)),
    Call(At(3), RecordUnallocated(PaymentInput(100, 0, 1, Some(1)))),
    Call(At(4), RefundPayment(30, 100, "left", 2)),
    Call(At(5), AllocatePayment(30, [AllocationInput(10, 100)], 3))]

  const Drafted := Invoice(10, 1, None, 100, None, Draft, 1)
  const Unspent := Payment(30, None, Some(1), 100, 0, 1, 3)
  const Leaving := Refund(40, 30, 100, "left", 2, 4)
  const Spending := Allocation(50, 30, 10, 100, Some(3), 5)

  /** The ledger after each of the calls. */
  function Stage(k: nat): Ledger
    requires k <= 5
  {
    if k == 0 then EmptyLedger
    else if k == 1 then Apply(Stage(0), AddInvoice(Drafted))
    else if k == 2 then Apply(Stage(1), SetStatus(10, Issued, 2))
    else if k == 3 then Apply(Stage(2), AddPayment(Unspent))
    else if k == 4 then Apply(Stage(3), AddRefund(Leaving))
    else Apply(Stage(4), AddAllocation(Spending))
  }

  const Received := Ledger([Drafted.(status := Issued)], [Unspent], [], [], [], [], [], [],
                           [StatusEntry(10, Draft, 1), StatusEntry(10, Issued, 2)])

  lemma StagesAre()
    ensures Stage(3) == Received
    ensures Stage(4) == Received.(refunds := [Leaving])
    ensures Stage(5) == Received.(refunds := [Leaving], allocations := [Spending])
  {
    assert Stage(1).invoices == [Drafted];
    assert Map([Drafted], WithStatus(10, Issued)) == [Drafted.(status := Issued)];
  }

  lemma OneInvoiceFound(x: Invoice)
    ensures InvoiceById([x], x.id) == Some(x)
  {}

  lemma OnePaymentFound(x: Payment)
    ensures PaymentById([x], x.id) == Some(x)
  {}

  lemma OpeningSteps()
    ensures forall k: nat | k < 3 :: Step(Stage(k), Overdrawing[k].env, Overdrawing[k].command) == Stage(k + 1)
  {
    OneTerm(InvoiceItem(1, 100, None), ItemTotal());
    OneEffect(Stage(0), AddInvoice(Drafted));
    OneInvoiceFound(Drafted);
    OneEffect(Stage(1), SetStatus(10, Issued, 2));
    OneEffect(Stage(2), AddPayment(Unspent));
  }

  lemma RefundStep()
    ensures Step(Stage(3), Overdrawing[3].env, Overdrawing[3].command) == Stage(4)
  {
    StagesAre();
    OnePaymentFound(Unspent);
    assert OldestFirst(Received, 30) == [];
    OneEffect(Stage(3), AddRefund(Leaving));
    assert [AddRefund(Leaving)] + [] == [AddRefund(Leaving)];
  }

  lemma NothingPaid(l: Ledger)
    requires l.allocations == [] && l.refundAllocations == [] && l.notes == []
    ensures forall x :: Paid(l, x) == 0 && Credit(l, x) == 0
  {}

  lemma BatchItemPasses(l: Ledger)
    requires l == Received.(refunds := [Leaving])
    ensures ItemError(l, Unspent, AllocationInput(10, 100)).None?
  {
    OneInvoiceFound(Drafted.(status := Issued));
    NothingPaid(l);
  }

  lemma BatchDecision(l: Ledger)
    requires l == Received.(refunds := [Leaving])
    ensures DecideAllocate(l, At(5), 30, [AllocationInput(10, 100)], 3) == Accept(30, [AddAllocation(Spending)])
  {
    var batch := [AllocationInput(10, 100)];
    OnePaymentFound(Unspent);
    OneTerm(batch[0], InputAmount());
    BatchItemPasses(l);
    assert LockOrder(batch) == batch && KeyedRows(l, 30, 3) == [];
    assert Allocated(l.allocations, 30) == 0 && !Reversed(l.reversals, 30);
    assert BatchError(l, At(5), Unspent, 3, batch, 0).None?;
    assert BatchEffects(At(5), 30, 3, batch, 1) == [] + [AddAllocation(Spending)];
  }

  lemma BatchStep()
    ensures Step(Stage(4), Overdrawing[4].env, Overdrawing[4].command) == Stage(5)
  {
    StagesAre();
    var l := Stage(4);
    BatchDecision(l);
    assert Overdrawing[4] == Call(At(5), AllocatePayment(30, [AllocationInput(10, 100)], 3));
    OneEffect(l, AddAllocation(Spending));
    StepApplies(l, At(5), AllocatePayment(30, [AllocationInput(10, 100)], 3), [AddAllocation(Spending)]);
  }

  lemma StepApplies(l: Ledger, env: Env, c: Command, es: seq<Effect>)
    requires Decide(l, env, c).Accept? && Decide(l, env, c).effects == es
    ensures Step(l, env, c) == ApplyAll(l, es)
  {}

  lemma {:induction false} StageReached(k: nat)
    requires k <= 5
    ensures Run(Overdrawing[..k]) == Stage(k)
  {
    if k != 0 {
      StageReached(k - 1);
      assert Overdrawing[..k][..k - 1] == Overdrawing[..k - 1];
      OpeningSteps();
      RefundStep();
      BatchStep();
    }
  }

  lemma OverdrawingProper()
    ensures Proper(Overdrawing)
  {
    StagesAre();
    assert Stage(1).invoices == [Drafted] && Stage(2).invoices == [Drafted.(status := Issued)];
    forall i: nat | i < 5 ensures FreshAt(Overdrawing, i) { StageReached(i); }
  }

  /** A run of accepted calls that leaves a live payment's available credit at -100: the batch's
      check counts what was allocated and not what was refunded. */
  lemma CreditOverdrawn()
    ensures Proper(Overdrawing) && Unspent in Run(Overdrawing).payments
    ensures !Reversed(Run(Overdrawing).reversals, Unspent.id) && AvailableCredit(Run(Overdrawing))(Unspent) == -100
  {
    OverdrawingProper();
    StageReached(5);
    StagesAre();
    assert Overdrawing[..5] == Overdrawing;
    var l := Stage(5);
    OneTerm(Spending, AllocatedTerm(30));
    OneTerm(Leaving, UnallocatedTerm(l.refundAllocations, 30));
    assert Split([], 40) == 0;
  }
}
