/** The billing service: transactions that write row by row and roll back on failure. Each
    method is proved to perform exactly the decision its command has in the model. */
module BillingServices {
  import opened Collections
  import opened Ordering
  import opened Billing
  import opened BillingSafety
  import opened BillingRefunds
  import opened BillingRuns
  import opened BillingReplay

  datatype Reply = Replied(id: Id) | Failed(error: Error)

  /** The command was decided on the ledger before, and its rows are what the ledger gained. */
  predicate Performed(before: Ledger, env: Env, c: Command, reply: Reply, after: Ledger) {
    match Decide(before, env, c)
    case Accept(id, effects) => reply == Replied(id) && after == ApplyAll(before, effects)
    case Reject(error) => reply == Failed(error) && after == before
  }

  /** A performed command is a step of the model, so it keeps the ledger safe. */
  lemma PerformedSafe(before: Ledger, env: Env, c: Command, reply: Reply, after: Ledger)
    requires Safe(before) && Fresh(before, env) && Performed(before, env, c, reply, after)
    ensures after == Step(before, env, c) && Safe(after)
  {
    StepSafe(before, env, c);
  }

  // ---------- the waterfall loop against its closed form ----------

  /** Once a refund is used up, the allocations not reached give nothing. */
  lemma {:induction false} SplitsExhausted(l: Ledger, env: Env, refund: Id, oldest: seq<Allocation>, amount: int,
                                           k: nat, m: nat)
    requires k <= m <= |oldest| && 0 <= amount && Holding(l, oldest)
    requires TakeSum(l, oldest, amount, k) == amount
    ensures TakeSum(l, oldest, amount, m) == amount
    ensures Splits(l, env, refund, oldest, amount, m) == Splits(l, env, refund, oldest, amount, k)
  {
    if k < m {
      SplitsExhausted(l, env, refund, oldest, amount, k, m - 1);
      TakeSumIsLeast(l, oldest, amount, m - 1);
      TakeSumIsLeast(l, oldest, amount, m);
      assert Splits(l, env, refund, oldest, amount, m) == Splits(l, env, refund, oldest, amount, m - 1) + [];
    }
  }

  /** The loop's `available < remaining ? available : remaining`. */
  lemma TakeIsLeast(l: Ledger, oldest: seq<Allocation>, amount: int, k: nat)
    requires k < |oldest| && 0 <= amount && Holding(l, oldest)
    ensures var remaining := amount - TakeSum(l, oldest, amount, k);
            Take(l, oldest, amount, k) == if Available(l, oldest[k]) < remaining then Available(l, oldest[k])
              else remaining
  {
    assert oldest[k] in oldest;
    TakeSumIsLeast(l, oldest, amount, k);
  }

  function OtherUnallocated(splits: seq<RefundAllocation>, payment: Id, id: Id): Refund -> int {
    (r: Refund) => if r.payment == payment && r.id != id then r.amount - Split(splits, r.id) else 0
  }

  lemma OtherSplitAdded(l: Ledger, es: seq<Effect>, x: RefundAllocation, other: Id)
    requires x.refund != other
    ensures var before, after := ApplyAll(l, es), ApplyAll(l, es + [AddSplit(x)]);
            && after.refunds == before.refunds && after.allocations == before.allocations
            && Split(after.refundAllocations, other) == Split(before.refundAllocations, other)
  {
    ApplySnoc(l, es, AddSplit(x));
    SumSnoc(ApplyAll(l, es).refundAllocations, x, SplitTerm(other));
  }

  lemma {:induction false} OtherSplitsKept(l: Ledger, env: Env, refund: Refund, oldest: seq<Allocation>, k: nat,
                                           other: Id)
    requires k <= |oldest| && other != refund.id
    ensures var lk := ApplyAll(l, [AddRefund(refund)] + Splits(l, env, refund.id, oldest, refund.amount, k));
            && lk.refunds == l.refunds + [refund] && lk.allocations == l.allocations
            && Split(lk.refundAllocations, other) == Split(l.refundAllocations, other)
  {
    if k == 0 {
      OneEffect(l, AddRefund(refund));
      assert [AddRefund(refund)] + [] == [AddRefund(refund)];
    } else {
      OtherSplitsKept(l, env, refund, oldest, k - 1, other);
      var es := [AddRefund(refund)] + Splits(l, env, refund.id, oldest, refund.amount, k - 1);
      var es' := [AddRefund(refund)] + Splits(l, env, refund.id, oldest, refund.amount, k);
      var take := Take(l, oldest, refund.amount, k - 1);
      if take > 0 {
        var x := RefundAllocation(refund.id, oldest[k - 1].id, take, env.now);
        assert es' == es + [AddSplit(x)];
        OtherSplitAdded(l, es, x, other);
      } else {
        assert es' == es;
      }
    }
  }

  /** Excluding the new refund, the payment's unallocated refunds are what they were. */
  lemma OthersUnallocated(l: Ledger, env: Env, refund: Refund, oldest: seq<Allocation>)
    requires RefundById(l.refunds, refund.id).None?
    ensures var lk := ApplyAll(l, [AddRefund(refund)] + Splits(l, env, refund.id, oldest, refund.amount, |oldest|));
            Sum(lk.refunds, OtherUnallocated(lk.refundAllocations, refund.payment, refund.id))
              == UnallocatedRefunds(l, refund.payment)
  {
    var lk := ApplyAll(l, [AddRefund(refund)] + Splits(l, env, refund.id, oldest, refund.amount, |oldest|));
    var f := OtherUnallocated(lk.refundAllocations, refund.payment, refund.id);
    OtherSplitsKept(l, env, refund, oldest, |oldest|, refund.id + 1);
    SumSnoc(l.refunds, refund, f);
    forall r | r in l.refunds ensures f(r) == UnallocatedTerm(l.refundAllocations, refund.payment)(r) {
      OtherSplitsKept(l, env, refund, oldest, |oldest|, r.id);
    }
    SumSame(l.refunds, f, UnallocatedTerm(l.refundAllocations, refund.payment));
  }

  lemma BatchErrorNext(l: Ledger, env: Env, payment: Payment, key: Key, items: seq<AllocationInput>, k: nat)
    requires k < |items|
    ensures BatchError(l, env, payment, key, items, k)
            == var e := ItemError(l, payment, items[k]);
               if e.Some? then e
               else BatchError(Apply(l, AddAllocation(BatchRow(env, payment.id, key, items[k], k))), env, payment, key,
                               items, k + 1)
  {}

  lemma BatchEffectsNext(l: Ledger, env: Env, payment: Id, key: Key, items: seq<AllocationInput>, k: nat)
    requires k < |items|
    ensures ApplyAll(l, BatchEffects(env, payment, key, items, k + 1))
            == Apply(ApplyAll(l, BatchEffects(env, payment, key, items, k)),
                     AddAllocation(BatchRow(env, payment, key, items[k], k)))
  {
    ApplySnoc(l, BatchEffects(env, payment, key, items, k), AddAllocation(BatchRow(env, payment, key, items[k], k)));
  }

  lemma SplitNext(l: Ledger, env: Env, refund: Refund, oldest: seq<Allocation>, k: nat)
    requires k < |oldest| && 0 <= refund.amount && Holding(l, oldest)
    ensures var take := Take(l, oldest, refund.amount, k);
            var before := ApplyAll(l, [AddRefund(refund)] + Splits(l, env, refund.id, oldest, refund.amount, k));
            && 0 <= take
            && ApplyAll(l, [AddRefund(refund)] + Splits(l, env, refund.id, oldest, refund.amount, k + 1))
               == if take > 0 then Apply(before, AddSplit(RefundAllocation(refund.id, oldest[k].id, take, env.now)))
                 else before
  {
    var take := Take(l, oldest, refund.amount, k);
    var es := [AddRefund(refund)] + Splits(l, env, refund.id, oldest, refund.amount, k);
    assert oldest[k] in oldest;
    var es' := [AddRefund(refund)] + Splits(l, env, refund.id, oldest, refund.amount, k + 1);
    if take > 0 {
      var e := AddSplit(RefundAllocation(refund.id, oldest[k].id, take, env.now));
      assert es' == es + [e];
      ApplySnoc(l, es, e);
    } else {
      assert es' == es;
    }
  }

  class BillingService {
    var db: Ledger

    constructor ()
      ensures db == EmptyLedger
    {
      db := EmptyLedger;
    }

    /** requireEnrollment for every item that names one. */
    method RequireItemEnrollments(env: Env, student: Id, items: seq<InvoiceItem>) returns (ok: bool)
      ensures ok <==> forall x | x in items :: !Foreign(env, x.enrollment, student)
    {
      for i := 0 to |items|
        invariant forall x | x in items[..i] :: !Foreign(env, x.enrollment, student)
      {
        if Foreign(env, items[i].enrollment, student) { return false; }
        assert items[..i + 1] == items[..i] + [items[i]];
      }
      assert items[..|items|] == items;
      ok := true;
    }

    method Subtotal(items: seq<InvoiceItem>) returns (subtotal: int)
      ensures subtotal == Sum(items, ItemTotal())
    {
      subtotal := 0;
      for i := 0 to |items|
        invariant subtotal == Sum(items[..i], ItemTotal())
      {
        subtotal := subtotal + items[i].quantity * items[i].unit;
        assert items[..i + 1] == items[..i] + [items[i]];
        SumSnoc(items[..i], items[i], ItemTotal());
      }
      assert items[..|items|] == items;
    }

    /** Adds up the enrollment's discounts, or stops at one over its maximum. */
    method EnrollmentDiscount(discounts: seq<AppliedDiscount>) returns (ok: bool, total: int)
      ensures ok <==> !OverMaximum(discounts)
      ensures ok ==> total == Sum(discounts, DiscountTotal())
    {
      total := 0;
      for i := 0 to |discounts|
        invariant total == Sum(discounts[..i], DiscountTotal())
        invariant forall d | d in discounts[..i] :: d.max.Some? ==> d.amount <= d.max.value
      {
        if discounts[i].max.Some? && discounts[i].amount > discounts[i].max.value {
          assert discounts[i] in discounts;
          return false, 0;
        }
        total := total + discounts[i].amount;
        assert discounts[..i + 1] == discounts[..i] + [discounts[i]];
        SumSnoc(discounts[..i], discounts[i], DiscountTotal());
      }
      assert discounts[..|discounts|] == discounts;
      ok := true;
    }

    method CreateInvoice(env: Env, student: Id, enrollment: Option<Id>, plan: Option<Id>, due: Option<int>,
                         given: seq<InvoiceItem>, discount: nat, discounts: seq<AppliedDiscount>)
      returns (reply: Reply)
      modifies this
      ensures Performed(old(db), env, Command.CreateInvoice(student, enrollment, plan, due, given, discount, discounts),
                        reply, db)
    {
      if enrollment.Some? && plan.Some? { return Failed(BadRequest); }
      if student !in env.students { return Failed(NotFound); }
      if Foreign(env, enrollment, student) { return Failed(BadRequest); }
      if plan.Some? && plan.value !in env.plans { return Failed(BadRequest); }
      var owned := RequireItemEnrollments(env, student, given);
      if !owned { return Failed(BadRequest); }
      var items := given;
      if enrollment.Some? && |items| == 0 && enrollment.value in env.prices {
        items := [InvoiceItem(1, env.prices[enrollment.value], enrollment)];
      }
      if plan.Some? && |items| == 0 { items := [InvoiceItem(1, env.plans[plan.value], enrollment)]; }
      if |items| == 0 { return Failed(BadRequest); }
      var subtotal := Subtotal(items);
      var withinMaximum, enrollmentDiscount := EnrollmentDiscount(discounts);
      if !withinMaximum { return Failed(Conflict); }
      if discount + enrollmentDiscount > subtotal { return Failed(BadRequest); }
      var id := env.ulid(0);
      var x := Invoice(id, student, enrollment, subtotal - (discount + enrollmentDiscount), due, Draft, env.now);
      db := db.(invoices := db.invoices + [x]);
      db := db.(history := db.history + [StatusEntry(id, Draft, env.now)]);
      OneEffect(old(db), AddInvoice(x));
      reply := Replied(id);
    }

    /** command(): issue a draft invoice, or void an unpaid issued one. */
    method ChangeStatus(env: Env, id: Id, status: InvoiceStatus) returns (reply: Reply)
      requires status != Draft
      modifies this
      ensures Performed(old(db), env, if status == Issued then IssueInvoice(id) else VoidInvoice(id), reply, db)
    {
      var row := InvoiceById(db.invoices, id);
      if row.None? { return Failed(NotFound); }
      if status == Issued && row.value.status != Draft { return Failed(Conflict); }
      if status == Voided && row.value.status != Issued { return Failed(Conflict); }
      if status == Voided && Paid(db, id) > 0 { return Failed(Conflict); }
      db := db.(invoices := Map(db.invoices, WithStatus(id, status)));
      db := db.(history := db.history + [StatusEntry(id, status, env.now)]);
      OneEffect(old(db), SetStatus(id, status, env.now));
      reply := Replied(id);
    }

    method RecordPayment(env: Env, invoice: Id, input: PaymentInput) returns (reply: Reply)
      modifies this
      ensures Performed(old(db), env, Command.RecordPayment(invoice, input), reply, db)
    {
      var begin := db;
      var existing := PaymentByKey(db.payments, input.key);
      if existing.Some? {
        if !SamePayment(existing.value, Some(invoice), input) { return Failed(Conflict); }
        return Replied(existing.value.id);
      }
      var inv := InvoiceById(db.invoices, invoice);
      if inv.None? { return Failed(NotFound); }
      if inv.value.status != Issued { return Failed(Conflict); }
      if input.student.Some? && input.student.value != inv.value.student { return Failed(BadRequest); }
      if input.amount > Outstanding(db, inv.value) { return Failed(Conflict); }
      var student := if input.student.Some? then input.student.value else inv.value.student;
      if student !in env.students { return Failed(NotFound); }
      var id := env.ulid(0);
      var p := Payment(id, Some(invoice), Some(student), input.amount, input.paidBy, input.key, env.now);
      db := db.(payments := db.payments + [p]);
      var a := Allocation(env.ulid(1), id, invoice, input.amount, None, env.now);
      db := db.(allocations := db.allocations + [a]);
      OneEffect(begin, AddPayment(p));
      ApplySnoc(begin, [AddPayment(p)], AddAllocation(a));
      assert [AddPayment(p), AddAllocation(a)] == [AddPayment(p)] + [AddAllocation(a)];
      reply := Replied(id);
    }

    method RecordUnallocatedPayment(env: Env, input: PaymentInput) returns (reply: Reply)
      modifies this
      ensures Performed(old(db), env, RecordUnallocated(input), reply, db)
    {
      var existing := PaymentByKey(db.payments, input.key);
      if existing.Some? {
        if !SamePayment(existing.value, None, input) { return Failed(Conflict); }
        return Replied(existing.value.id);
      }
      if input.student.Some? && input.student.value !in env.students { return Failed(NotFound); }
      var p := Payment(env.ulid(0), None, input.student, input.amount, input.paidBy, input.key, env.now);
      db := db.(payments := db.payments + [p]);
      OneEffect(old(db), AddPayment(p));
      reply := Replied(p.id);
    }

    method AllocatePayment(env: Env, payment: Id, batch: seq<AllocationInput>, key: Key) returns (reply: Reply)
      modifies this
      ensures Performed(old(db), env, Command.AllocatePayment(payment, batch, key), reply, db)
    {
      var begin := db;
      var found := PaymentById(db.payments, payment);
      if found.None? { return Failed(NotFound); }
      if Reversed(db.reversals, payment) { return Failed(Conflict); }
      if |batch| == 0 { return Failed(BadRequest); }
      if RepeatedInvoice(batch) { return Failed(BadRequest); }
      var duplicate := KeyedRows(db, payment, key);
      if |duplicate| != 0 {
        if !SameBatch(duplicate, batch) { return Failed(Conflict); }
        return Replied(payment);
      }
      if Allocated(db.allocations, payment) + Sum(batch, InputAmount()) > found.value.amount {
        return Failed(Conflict);
      }
      var failure := AllocateInOrder(env, found.value, LockOrder(batch), key);
      if failure.Some? {
        db := begin;
        return Failed(failure.value);
      }
      reply := Replied(payment);
    }

    /** The loop over the batch in lock order: each item is checked against the rows before it. */
    method AllocateInOrder(env: Env, payment: Payment, ordered: seq<AllocationInput>, key: Key)
      returns (failure: Option<Error>)
      modifies this
      ensures failure == BatchError(old(db), env, payment, key, ordered, 0)
      ensures failure.None? ==> db == ApplyAll(old(db), BatchEffects(env, payment.id, key, ordered, |ordered|))
    {
      var begin := db;
      for k := 0 to |ordered|
        invariant db == ApplyAll(begin, BatchEffects(env, payment.id, key, ordered, k))
        invariant BatchError(db, env, payment, key, ordered, k) == BatchError(begin, env, payment, key, ordered, 0)
      {
        failure := ItemError(db, payment, ordered[k]);
        var row := BatchRow(env, payment.id, key, ordered[k], k);
        BatchErrorNext(db, env, payment, key, ordered, k);
        if failure.Some? { return; }
        BatchEffectsNext(begin, env, payment.id, key, ordered, k);
        db := db.(allocations := db.allocations + [row]);
      }
      failure := None;
    }

    method ReversePayment(env: Env, payment: Id, reason: string, key: Key) returns (reply: Reply)
      modifies this
      ensures Performed(old(db), env, Command.ReversePayment(payment, reason, key), reply, db)
    {
      if PaymentById(db.payments, payment).None? { return Failed(NotFound); }
      var existing := Find(db.reversals, (r: Reversal) => r.payment == payment);
      if existing.Some? {
        if existing.value.key == key { return Replied(payment); }
        return Failed(Conflict);
      }
      if reason == "" || Exists(db.reversals, (r: Reversal) => r.key == key) { return Failed(ConstraintViolation); }
      var r := Reversal(payment, reason, key, env.now);
      db := db.(reversals := db.reversals + [r]);
      OneEffect(old(db), AddReversal(r));
      reply := Replied(payment);
    }

    /** The waterfall loop: takes from the payment's allocations, oldest first, until the refund
        is used up; `available` is what each held when the query was made, before the refund. */
    method SplitRefund(env: Env, refund: Refund, rows: seq<Allocation>, ghost begin: Ledger) returns (remaining: int)
      requires db == Apply(begin, AddRefund(refund)) && 0 <= refund.amount && Holding(begin, rows)
      modifies this
      ensures db == ApplyAll(begin, [AddRefund(refund)] + Splits(begin, env, refund.id, rows, refund.amount, |rows|))
      ensures remaining == refund.amount - TakeSum(begin, rows, refund.amount, |rows|)
    {
      var queried := db;
      var amount := refund.amount;
      remaining := amount;
      OneEffect(begin, AddRefund(refund));
      assert [AddRefund(refund)] + [] == [AddRefund(refund)];
      var k := 0;
      while k < |rows| && remaining != 0
        invariant k <= |rows|
        invariant remaining == amount - TakeSum(begin, rows, amount, k)
        invariant db == ApplyAll(begin, [AddRefund(refund)] + Splits(begin, env, refund.id, rows, amount, k))
      {
        var available := Available(queried, rows[k]);
        var take := if available < remaining then available else remaining;
        TakeIsLeast(begin, rows, amount, k);
        SplitNext(begin, env, refund, rows, k);
        if take > 0 {
          var x := RefundAllocation(refund.id, rows[k].id, take, env.now);
          db := db.(refundAllocations := db.refundAllocations + [x]);
          remaining := remaining - take;
        }
        k := k + 1;
      }
      if remaining == 0 { SplitsExhausted(begin, env, refund.id, rows, amount, k, |rows|); }
    }

    method RefundPayment(env: Env, payment: Id, amount: Vnd, reason: string, key: Key) returns (reply: Reply)
      requires AllocationsCovered(db) && RefundById(db.refunds, env.ulid(0)).None?
      modifies this
      ensures Performed(old(db), env, Command.RefundPayment(payment, amount, reason, key), reply, db)
    {
      var begin := db;
      var found := PaymentById(db.payments, payment);
      if found.None? { return Failed(NotFound); }
      var existing := RefundByKey(db.refunds, payment, key);
      if existing.Some? {
        if existing.value.amount != amount || existing.value.reason != reason { return Failed(Conflict); }
        return Replied(existing.value.id);
      }
      if Reversed(db.reversals, payment) { return Failed(Conflict); }
      if Refunds(db.refunds, payment) + amount > found.value.amount { return Failed(Conflict); }
      var refund := Refund(env.ulid(0), payment, amount, reason, key, env.now);
      db := db.(refunds := db.refunds + [refund]);
      var rows := OldestFirst(db, payment);
      OldestHolding(begin, payment);
      assert rows == OldestFirst(begin, payment);
      var remaining := SplitRefund(env, refund, rows, begin);
      if remaining > 0 {
        OthersUnallocated(begin, env, refund, rows);
        OtherSplitsKept(begin, env, refund, rows, |rows|, refund.id + 1);
        var unallocated := found.value.amount - Allocated(db.allocations, payment)
                           - Sum(db.refunds, OtherUnallocated(db.refundAllocations, payment, refund.id));
        if remaining > unallocated {
          db := begin;
          return Failed(Conflict);
        }
      }
      reply := Replied(refund.id);
    }

    method CreateCreditNote(env: Env, invoice: Id, amount: Vnd, reason: string, key: Key) returns (reply: Reply)
      modifies this
      ensures Performed(old(db), env, Command.CreateCreditNote(invoice, amount, reason, key), reply, db)
    {
      var existing := NoteByKey(db.notes, key);
      if existing.Some? {
        if existing.value.invoice != invoice || existing.value.amount != amount || existing.value.reason != reason {
          return Failed(Conflict);
        }
        return Replied(existing.value.id);
      }
      var inv := InvoiceById(db.invoices, invoice);
      if inv.None? { return Failed(NotFound); }
      if inv.value.status != Issued { return Failed(Conflict); }
      if amount > Outstanding(db, inv.value) { return Failed(Conflict); }
      var n := CreditNote(env.ulid(0), invoice, amount, reason, key, DraftNote, None, env.now);
      db := db.(notes := db.notes + [n]);
      OneEffect(old(db), AddNote(n));
      reply := Replied(n.id);
    }

    method IssueCreditNote(env: Env, note: Id) returns (reply: Reply)
      modifies this
      ensures Performed(old(db), env, Command.IssueCreditNote(note), reply, db)
    {
      var n := NoteById(db.notes, note);
      if n.None? { return Failed(NotFound); }
      if n.value.status == IssuedNote {
        if NoteVoided(db.voids, note) { return Failed(Conflict); }
        return Replied(note);
      }
      var inv := InvoiceById(db.invoices, n.value.invoice);
      if inv.None? { return Failed(NotFound); }
      if inv.value.status != Issued { return Failed(Conflict); }
      if n.value.amount > Outstanding(db, inv.value) { return Failed(Conflict); }
      db := db.(notes := Map(db.notes, AsIssued(note, env.now)));
      OneEffect(old(db), IssueNote(note, env.now));
      reply := Replied(note);
    }

    method VoidCreditNote(env: Env, note: Id, reason: string, key: Key) returns (reply: Reply)
      modifies this
      ensures Performed(old(db), env, Command.VoidCreditNote(note, reason, key), reply, db)
    {
      var n := NoteById(db.notes, note);
      if n.None? { return Failed(NotFound); }
      if n.value.status != IssuedNote { return Failed(Conflict); }
      var existing := Find(db.voids, (v: NoteVoid) => v.note == note);
      if existing.Some? {
        if existing.value.key == key && existing.value.reason == reason { return Replied(note); }
        return Failed(Conflict);
      }
      if reason == "" || Exists(db.voids, (v: NoteVoid) => v.key == key) { return Failed(ConstraintViolation); }
      var v := NoteVoid(note, reason, key, env.now);
      db := db.(voids := db.voids + [v]);
      OneEffect(old(db), AddVoid(v));
      reply := Replied(note);
    }
  }
}
