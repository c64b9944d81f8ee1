/** Every command writes only rows the database accepts, hence every run keeps the ledger safe. */
module BillingRuns {
  import opened Collections
  import opened Ordering
  import opened Billing
  import opened BillingSafety
  import opened BillingRefunds

  lemma SingleGuarded(l: Ledger, e: Effect)
    requires Guard(l, e)
    ensures AllGuarded(l, [e]) && ApplyAll(l, [e]) == Apply(l, e)
  {
    assert [e][..0] == [];
    assert ApplyAll(l, []) == l && AllGuarded(l, []);
  }

  lemma GuardedSnoc(l: Ledger, es: seq<Effect>, e: Effect)
    requires AllGuarded(l, es) && Guard(ApplyAll(l, es), e)
    ensures AllGuarded(l, es + [e])
  {
    assert (es + [e])[..|es|] == es;
  }

  lemma RecordPaymentGuarded(l: Ledger, env: Env, invoice: Id, input: PaymentInput)
    requires Safe(l) && Fresh(l, env)
    requires DecideRecordPayment(l, env, invoice, input).Accept?
    ensures AllGuarded(l, DecideRecordPayment(l, env, invoice, input).effects)
  {
    var es := DecideRecordPayment(l, env, invoice, input).effects;
    if PaymentByKey(l.payments, input.key).None? {
      SingleGuarded(l, es[0]);
      var p := es[0].payment;
      var l1 := Apply(l, es[0]);
      PaymentsGrow(l.payments, p);
      assert !Reversed(l.reversals, p.id) by {
        assert forall r | r in l.reversals :: PaymentById(l.payments, r.payment).Some?;
      }
      SumZero(l.allocations, AllocatedTerm(p.id));
      var inv := InvoiceById(l.invoices, invoice).value;
      assert Outstanding(l1, inv) == Outstanding(l, inv);
      assert Guard(l1, es[1]);
      GuardedSnoc(l, [es[0]], es[1]);
      assert es == [es[0]] + [es[1]];
    }
  }

  // ---------- allocation batches ----------

  ghost predicate BatchAccepted(l: Ledger, env: Env, p: Payment, key: Key, items: seq<AllocationInput>) {
    && Safe(l) && Fresh(l, env) && PaymentById(l.payments, p.id) == Some(p) && !Reversed(l.reversals, p.id)
    && Allocated(l.allocations, p.id) + Sum(items, InputAmount()) <= p.amount
    && BatchError(l, env, p, key, items, 0).None?
  }

  /** What holds of the ledger lk once the first k items of a batch are written. */
  ghost predicate BatchState(l: Ledger, lk: Ledger, env: Env, p: Payment, key: Key, items: seq<AllocationInput>, k: nat)
    requires k <= |items|
  {
    && lk == l.(allocations := lk.allocations)
    && BatchError(lk, env, p, key, items, k).None?
    && Allocated(lk.allocations, p.id) == Allocated(l.allocations, p.id) + Sum(items[..k], InputAmount())
    && (forall a | a in lk.allocations :: a in l.allocations || exists j: nat | j < k :: a.id == env.ulid(j))
  }

  lemma SumPrefix(items: seq<AllocationInput>, k: nat)
    requires k < |items|
    ensures Sum(items[..k + 1], InputAmount()) == Sum(items[..k], InputAmount()) + items[k].amount
    ensures Sum(items[..k + 1], InputAmount()) <= Sum(items, InputAmount())
  {
    assert items[..k + 1] == items[..k] + [items[k]];
    SumSnoc(items[..k], items[k], InputAmount());
    assert items == items[..k + 1] + items[k + 1..];
    SumConcat(items[..k + 1], items[k + 1..], InputAmount());
    SumNonNegative(items[k + 1..], InputAmount());
  }

  lemma BatchItemGuarded(l: Ledger, lk: Ledger, env: Env, p: Payment, key: Key, items: seq<AllocationInput>, k: nat)
    requires k < |items|
    requires BatchAccepted(l, env, p, key, items)
    requires BatchState(l, lk, env, p, key, items, k)
    ensures Guard(lk, AddAllocation(BatchRow(env, p.id, key, items[k], k)))
  {
    SumPrefix(items, k);
    assert AllocationById(lk.allocations, env.ulid(k)).None?;
  }

  lemma BatchItemWritten(l: Ledger, lk: Ledger, env: Env, p: Payment, key: Key, items: seq<AllocationInput>, k: nat)
    requires k < |items|
    requires BatchState(l, lk, env, p, key, items, k)
    ensures BatchState(l, Apply(lk, AddAllocation(BatchRow(env, p.id, key, items[k], k))), env, p, key, items, k + 1)
  {
    SumPrefix(items, k);
    SumSnoc(lk.allocations, BatchRow(env, p.id, key, items[k], k), AllocatedTerm(p.id));
  }

  lemma BatchRowWritten(l: Ledger, env: Env, p: Payment, key: Key, items: seq<AllocationInput>, k: nat, es: seq<Effect>)
    requires k < |items| && AllGuarded(l, es) && BatchState(l, ApplyAll(l, es), env, p, key, items, k)
    requires Guard(ApplyAll(l, es), AddAllocation(BatchRow(env, p.id, key, items[k], k)))
    ensures var es' := es + [AddAllocation(BatchRow(env, p.id, key, items[k], k))];
            AllGuarded(l, es') && BatchState(l, ApplyAll(l, es'), env, p, key, items, k + 1)
  {
    var row := BatchRow(env, p.id, key, items[k], k);
    BatchItemWritten(l, ApplyAll(l, es), env, p, key, items, k);
    ApplySnoc(l, es, AddAllocation(row));
    GuardedSnoc(l, es, AddAllocation(row));
  }

  /** The rows of the first k items are accepted, and leave the ledger in the state for the next. */
  ghost predicate BatchWritten(l: Ledger, env: Env, p: Payment, key: Key, items: seq<AllocationInput>, k: nat,
                               es: seq<Effect>)
    requires k <= |items|
  {
    AllGuarded(l, es) && BatchState(l, ApplyAll(l, es), env, p, key, items, k)
  }

  lemma BatchNext(l: Ledger, env: Env, p: Payment, key: Key, items: seq<AllocationInput>, k: nat,
                  es: seq<Effect>, es': seq<Effect>)
    requires 0 < k <= |items| && BatchAccepted(l, env, p, key, items) && BatchWritten(l, env, p, key, items, k - 1, es)
    requires es' == es + [AddAllocation(BatchRow(env, p.id, key, items[k - 1], k - 1))]
    ensures BatchWritten(l, env, p, key, items, k, es')
  {
    BatchItemGuarded(l, ApplyAll(l, es), env, p, key, items, k - 1);
    BatchRowWritten(l, env, p, key, items, k - 1, es);
  }

  lemma {:induction false} BatchGuarded(l: Ledger, env: Env, p: Payment, key: Key, items: seq<AllocationInput>, k: nat)
    requires k <= |items| && BatchAccepted(l, env, p, key, items)
    ensures BatchWritten(l, env, p, key, items, k, BatchEffects(env, p.id, key, items, k))
  {
    if k == 0 {
      NothingWritten(l, env, p, key, items);
    } else {
      BatchGuarded(l, env, p, key, items, k - 1);
      BatchNext(l, env, p, key, items, k, BatchEffects(env, p.id, key, items, k - 1),
                BatchEffects(env, p.id, key, items, k));
    }
  }

  lemma NothingWritten(l: Ledger, env: Env, p: Payment, key: Key, items: seq<AllocationInput>)
    requires BatchError(l, env, p, key, items, 0).None?
    ensures BatchWritten(l, env, p, key, items, 0, [])
  {}

  lemma AllocateGuarded(l: Ledger, env: Env, payment: Id, items: seq<AllocationInput>, key: Key)
    requires Safe(l) && Fresh(l, env)
    requires DecideAllocate(l, env, payment, items, key).Accept?
    ensures AllGuarded(l, DecideAllocate(l, env, payment, items, key).effects)
  {
    if |KeyedRows(l, payment, key)| == 0 {
      SumSort(items, ByInvoice, InputAmount());
      BatchGuarded(l, env, PaymentById(l.payments, payment).value, key, LockOrder(items), |items|);
    }
  }

  // ---------- refunds ----------

  function TakenFromOne(l: Ledger, oldest: seq<Allocation>, amount: int, k: nat, a: Allocation): int
    requires k <= |oldest|
  {
    if k == 0 then 0
    else TakenFromOne(l, oldest, amount, k - 1, a) + if oldest[k - 1].id == a.id then Take(l, oldest, amount, k - 1)
      else 0
  }

  lemma {:induction false} NotYetTaken(l: Ledger, oldest: seq<Allocation>, amount: int, k: nat, m: nat)
    requires k <= m < |oldest|
    requires forall i, j | 0 <= i < j < |oldest| :: oldest[i].id != oldest[j].id
    ensures TakenFromOne(l, oldest, amount, k, oldest[m]) == 0
  {
    if k != 0 {
      NotYetTaken(l, oldest, amount, k - 1, m);
    }
  }

  /** What holds of the ledger lk once the refund and its splits over the k oldest are written. */
  ghost predicate SplitState(l: Ledger, lk: Ledger, refund: Refund, oldest: seq<Allocation>, k: nat)
    requires k <= |oldest|
  {
    && lk == l.(refunds := l.refunds + [refund], refundAllocations := lk.refundAllocations)
    && Split(lk.refundAllocations, refund.id) == TakeSum(l, oldest, refund.amount, k)
    && (forall a | a in oldest :: Taken(lk.refundAllocations, a.id)
          == Taken(l.refundAllocations, a.id) + TakenFromOne(l, oldest, refund.amount, k, a))
    && (forall x | x in lk.refundAllocations && x.refund == refund.id ::
          exists j | 0 <= j < k :: oldest[j].id == x.allocation)
  }

  lemma SplitGuarded(l: Ledger, lk: Ledger, env: Env, refund: Refund, oldest: seq<Allocation>, k: nat)
    requires k < |oldest| && 0 < refund.amount && Holding(l, oldest)
    requires forall i, j | 0 <= i < j < |oldest| :: oldest[i].id != oldest[j].id
    requires AllocationById(l.allocations, oldest[k].id) == Some(oldest[k]) && oldest[k].payment == refund.payment
    requires RefundById(l.refunds + [refund], refund.id) == Some(refund)
    requires SplitState(l, lk, refund, oldest, k)
    requires Take(l, oldest, refund.amount, k) > 0
    ensures Guard(lk, AddSplit(RefundAllocation(refund.id, oldest[k].id, Take(l, oldest, refund.amount, k), env.now)))
  {
    assert oldest[k] in oldest;
    NotYetTaken(l, oldest, refund.amount, k, k);
    TakeSumIsLeast(l, oldest, refund.amount, k + 1);
  }

  lemma SplitWritten(l: Ledger, lk: Ledger, env: Env, refund: Refund, oldest: seq<Allocation>, k: nat)
    requires k < |oldest|
    requires SplitState(l, lk, refund, oldest, k)
    ensures var x := RefundAllocation(refund.id, oldest[k].id, Take(l, oldest, refund.amount, k), env.now);
            SplitState(l, Apply(lk, AddSplit(x)), refund, oldest, k + 1)
  {
    var x := RefundAllocation(refund.id, oldest[k].id, Take(l, oldest, refund.amount, k), env.now);
    SumSnoc(lk.refundAllocations, x, SplitTerm(refund.id));
    assert oldest[k].id == x.allocation;
    forall b | b in oldest
      ensures Taken(lk.refundAllocations + [x], b.id) == Taken(lk.refundAllocations, b.id) + TakenTerm(b.id)(x)
    {
      SumSnoc(lk.refundAllocations, x, TakenTerm(b.id));
    }
  }

  lemma NothingSplitYet(l: Ledger, refund: Refund, oldest: seq<Allocation>)
    requires SplitsLinked(l) && RefundById(l.refunds, refund.id).None?
    ensures SplitState(l, Apply(l, AddRefund(refund)), refund, oldest, 0)
  {
    forall x | x in l.refundAllocations ensures SplitTerm(refund.id)(x) == 0 { assert SplitLinked(l, x); }
    SumZero(l.refundAllocations, SplitTerm(refund.id));
  }

  lemma SplitStepKept(l: Ledger, env: Env, refund: Refund, oldest: seq<Allocation>, k: nat, es: seq<Effect>)
    requires k < |oldest| && Holding(l, oldest) && AllGuarded(l, es)
             && SplitState(l, ApplyAll(l, es), refund, oldest, k)
    requires Take(l, oldest, refund.amount, k) > 0
    requires Guard(ApplyAll(l, es),
                   AddSplit(RefundAllocation(refund.id, oldest[k].id, Take(l, oldest, refund.amount, k), env.now)))
    ensures var e := AddSplit(RefundAllocation(refund.id, oldest[k].id, Take(l, oldest, refund.amount, k), env.now));
            AllGuarded(l, es + [e]) && SplitState(l, ApplyAll(l, es + [e]), refund, oldest, k + 1)
  {
    var e := AddSplit(RefundAllocation(refund.id, oldest[k].id, Take(l, oldest, refund.amount, k), env.now));
    SplitWritten(l, ApplyAll(l, es), env, refund, oldest, k);
    ApplySnoc(l, es, e);
    GuardedSnoc(l, es, e);
  }

  /** The allocations the loop visits: this payment's, each once, none over-refunded yet. */
  ghost predicate Visits(l: Ledger, refund: Refund, oldest: seq<Allocation>) {
    && 0 < refund.amount && Holding(l, oldest)
    && RefundById(l.refunds + [refund], refund.id) == Some(refund)
    && (forall i, j | 0 <= i < j < |oldest| :: oldest[i].id != oldest[j].id)
    && (forall a | a in oldest :: AllocationById(l.allocations, a.id) == Some(a) && a.payment == refund.payment)
  }

  lemma SplitSkipped(l: Ledger, lk: Ledger, refund: Refund, oldest: seq<Allocation>, k: nat)
    requires k < |oldest| && 0 <= refund.amount && Holding(l, oldest) && SplitState(l, lk, refund, oldest, k)
    requires Take(l, oldest, refund.amount, k) <= 0
    ensures SplitState(l, lk, refund, oldest, k + 1)
  {
    assert oldest[k] in oldest;
  }

  function RefundRows(l: Ledger, env: Env, refund: Refund, oldest: seq<Allocation>, k: nat): seq<Effect>
    requires k <= |oldest|
  {
    [AddRefund(refund)] + Splits(l, env, refund.id, oldest, refund.amount, k)
  }

  lemma RefundRowsNext(l: Ledger, env: Env, refund: Refund, oldest: seq<Allocation>, k: nat)
    requires k < |oldest|
    ensures RefundRows(l, env, refund, oldest, k + 1)
            == var take := Take(l, oldest, refund.amount, k);
               RefundRows(l, env, refund, oldest, k)
               + if take <= 0 then [] else [AddSplit(RefundAllocation(refund.id, oldest[k].id, take, env.now))]
  {}

  ghost predicate PrefixWritten(l: Ledger, env: Env, refund: Refund, oldest: seq<Allocation>, k: nat)
    requires k <= |oldest|
  {
    var es := RefundRows(l, env, refund, oldest, k);
    AllGuarded(l, es) && SplitState(l, ApplyAll(l, es), refund, oldest, k)
  }

  lemma SplitsPrefixNext(l: Ledger, env: Env, refund: Refund, oldest: seq<Allocation>, k: nat)
    requires k < |oldest| && Visits(l, refund, oldest) && PrefixWritten(l, env, refund, oldest, k)
    ensures PrefixWritten(l, env, refund, oldest, k + 1)
  {
    var es := RefundRows(l, env, refund, oldest, k);
    RefundRowsNext(l, env, refund, oldest, k);
    if Take(l, oldest, refund.amount, k) > 0 {
      assert oldest[k] in oldest;
      SplitGuarded(l, ApplyAll(l, es), env, refund, oldest, k);
      SplitStepKept(l, env, refund, oldest, k, es);
    } else {
      SplitSkipped(l, ApplyAll(l, es), refund, oldest, k);
      assert es + [] == es;
    }
  }

  lemma {:induction false} SplitsPrefix(l: Ledger, env: Env, refund: Refund, oldest: seq<Allocation>, k: nat)
    requires k <= |oldest| && Visits(l, refund, oldest)
    requires Guard(l, AddRefund(refund)) && SplitState(l, Apply(l, AddRefund(refund)), refund, oldest, 0)
    ensures PrefixWritten(l, env, refund, oldest, k)
  {
    if k == 0 {
      SingleGuarded(l, AddRefund(refund));
      assert [AddRefund(refund)] + [] == [AddRefund(refund)];
    } else {
      SplitsPrefix(l, env, refund, oldest, k - 1);
      SplitsPrefixNext(l, env, refund, oldest, k - 1);
    }
  }

  lemma OldestSorted(l: Ledger, payment: Id)
    requires UniqueAllocations(l.allocations)
    ensures Increasing(OldestFirst(l, payment), Older)
  {
    var s := AllocationsOf(l, payment);
    FilterMembers(l.allocations, (a: Allocation) => a.payment == payment);
    FilterDistinct(l.allocations, (a: Allocation) => a.payment == payment);
    forall x, y | x in s && y in s && x != y ensures Older(x, y) || Older(y, x) { AllocationFound(l.allocations, x); }
    SortIncreasing(s, Older);
  }

  lemma OldestDistinct(l: Ledger, payment: Id)
    requires UniqueAllocations(l.allocations)
    ensures forall i, j | 0 <= i < j < |OldestFirst(l, payment)| ::
      OldestFirst(l, payment)[i].id != OldestFirst(l, payment)[j].id
  {
    var r := OldestFirst(l, payment);
    OldestSorted(l, payment);
    OldestMembers(l, payment);
    forall i, j | 0 <= i < j < |r| ensures r[i].id != r[j].id {
      assert Older(r[i], r[j]) && r[i] in r && r[j] in r;
      AllocationFound(l.allocations, r[i]);
      AllocationFound(l.allocations, r[j]);
    }
  }

  lemma {:induction false} FilterDistinct(s: seq<Allocation>, p: Allocation -> bool)
    requires UniqueAllocations(s)
    ensures UniqueAllocations(Filter(s, p))
  {
    if |s| != 0 {
      FilterDistinct(s[..|s| - 1], p);
      FilterMembers(s[..|s| - 1], p);
      forall x | x in Filter(s[..|s| - 1], p) ensures x.id != s[|s| - 1].id { assert x in s[..|s| - 1]; }
    }
  }

  lemma WaterfallGuarded(l: Ledger, env: Env, refund: Refund)
    requires Linked(l) && Guard(l, AddRefund(refund))
    ensures var oldest := OldestFirst(l, refund.payment);
            && AllGuarded(l, [AddRefund(refund)] + Splits(l, env, refund.id, oldest, refund.amount, |oldest|))
            && PrefixWritten(l, env, refund, oldest, |oldest|)
  {
    var oldest := OldestFirst(l, refund.payment);
    OldestDistinct(l, refund.payment);
    OldestHolding(l, refund.payment);
    OldestMembers(l, refund.payment);
    RefundsGrow(l.refunds, refund);
    NothingSplitYet(l, refund, oldest);
    forall a | a in oldest ensures AllocationById(l.allocations, a.id) == Some(a) { AllocationFound(l.allocations, a); }
    SplitsPrefix(l, env, refund, oldest, |oldest|);
  }

  lemma RefundGuarded(l: Ledger, env: Env, payment: Id, amount: Vnd, reason: string, key: Key)
    requires Linked(l) && Fresh(l, env)
    requires DecideRefund(l, env, payment, amount, reason, key).Accept?
    ensures AllGuarded(l, DecideRefund(l, env, payment, amount, reason, key).effects)
  {
    if RefundByKey(l.refunds, payment, key).None? {
      WaterfallGuarded(l, env, Refund(env.ulid(0), payment, amount, reason, key, env.now));
    }
  }

  // ---------- all commands, all runs ----------

  lemma CreateInvoiceGuarded(l: Ledger, env: Env, c: Command)
    requires Fresh(l, env) && c.CreateInvoice?
    requires DecideCreateInvoice(env, c).Accept?
    ensures AllGuarded(l, DecideCreateInvoice(env, c).effects)
  {
    SingleGuarded(l, DecideCreateInvoice(env, c).effects[0]);
  }

  lemma StatusGuarded(l: Ledger, env: Env, id: Id, status: InvoiceStatus)
    requires status != Draft && DecideStatus(l, env, id, status).Accept?
    ensures AllGuarded(l, DecideStatus(l, env, id, status).effects)
  {
    SingleGuarded(l, DecideStatus(l, env, id, status).effects[0]);
  }

  lemma RecordUnallocatedGuarded(l: Ledger, env: Env, input: PaymentInput)
    requires Fresh(l, env) && DecideRecordUnallocated(l, env, input).Accept?
    ensures AllGuarded(l, DecideRecordUnallocated(l, env, input).effects)
  {
    var es := DecideRecordUnallocated(l, env, input).effects;
    if |es| != 0 { SingleGuarded(l, es[0]); }
  }

  lemma ReverseGuarded(l: Ledger, env: Env, payment: Id, reason: string, key: Key)
    requires DecideReverse(l, env, payment, reason, key).Accept?
    ensures AllGuarded(l, DecideReverse(l, env, payment, reason, key).effects)
  {
    var es := DecideReverse(l, env, payment, reason, key).effects;
    if |es| != 0 { SingleGuarded(l, es[0]); }
  }

  lemma CreateNoteGuarded(l: Ledger, env: Env, invoice: Id, amount: Vnd, reason: string, key: Key)
    requires Fresh(l, env) && DecideCreateNote(l, env, invoice, amount, reason, key).Accept?
    ensures AllGuarded(l, DecideCreateNote(l, env, invoice, amount, reason, key).effects)
  {
    var es := DecideCreateNote(l, env, invoice, amount, reason, key).effects;
    if |es| != 0 { SingleGuarded(l, es[0]); }
  }

  lemma IssueNoteGuarded(l: Ledger, env: Env, note: Id)
    requires DecideIssueNote(l, env, note).Accept?
    ensures AllGuarded(l, DecideIssueNote(l, env, note).effects)
  {
    var es := DecideIssueNote(l, env, note).effects;
    if |es| != 0 { SingleGuarded(l, es[0]); }
  }

  lemma VoidNoteGuarded(l: Ledger, env: Env, note: Id, reason: string, key: Key)
    requires DecideVoidNote(l, env, note, reason, key).Accept?
    ensures AllGuarded(l, DecideVoidNote(l, env, note, reason, key).effects)
  {
    var es := DecideVoidNote(l, env, note, reason, key).effects;
    if |es| != 0 { SingleGuarded(l, es[0]); }
  }

  lemma PaymentCommandGuarded(l: Ledger, env: Env, c: Command)
    requires Safe(l) && Fresh(l, env)
    requires Decide(l, env, c).Accept?
    requires c.RecordPayment? || c.RecordUnallocated? || c.AllocatePayment? || c.ReversePayment? || c.RefundPayment?
    ensures AllGuarded(l, Decide(l, env, c).effects)
  {
    match c
    case RecordPayment(invoice, input) => RecordPaymentGuarded(l, env, invoice, input);
    case RecordUnallocated(input) => RecordUnallocatedGuarded(l, env, input);
    case AllocatePayment(payment, items, key) => AllocateGuarded(l, env, payment, items, key);
    case ReversePayment(payment, reason, key) => ReverseGuarded(l, env, payment, reason, key);
    case RefundPayment(payment, amount, reason, key) => RefundGuarded(l, env, payment, amount, reason, key);
  }

  lemma {:induction false} BatchReferences(env: Env, payment: Id, key: Key, items: seq<AllocationInput>, k: nat)
    requires k <= |items|
    ensures forall e | e in BatchEffects(env, payment, key, items, k) :: e.AddAllocation?
  {
    if k != 0 { BatchReferences(env, payment, key, items, k - 1); }
  }

  lemma {:induction false} SplitReferences(l: Ledger, env: Env, refund: Id, oldest: seq<Allocation>, amount: int,
                                           k: nat)
    requires k <= |oldest|
    ensures forall e | e in Splits(l, env, refund, oldest, amount, k) :: e.AddSplit?
  {
    if k != 0 { SplitReferences(l, env, refund, oldest, amount, k - 1); }
  }

  lemma CommandReferences(l: Ledger, env: Env, c: Command, e: Effect)
    requires Decide(l, env, c).Accept? && e in Decide(l, env, c).effects
    ensures ReferencesHeld(env, e)
  {
    match c
    case AllocatePayment(payment, batch, key) =>
      BatchReferences(env, payment, key, LockOrder(batch), |LockOrder(batch)|);
    case RefundPayment(payment, amount, _, _) =>
      SplitReferences(l, env, env.ulid(0), OldestFirst(l, payment), amount, |OldestFirst(l, payment)|);
    case _ =>
  }

  /** Every row an accepted command writes passes, at the moment it is written, the database's
      constraints and triggers and the service's checks, and refers to existing students and
      enrollments: what the database would refuse is decided as a ConstraintViolation. */
  lemma CommandGuarded(l: Ledger, env: Env, c: Command)
    requires Safe(l) && Fresh(l, env)
    requires Decide(l, env, c).Accept?
    ensures AllGuarded(l, Decide(l, env, c).effects)
    ensures forall e | e in Decide(l, env, c).effects :: ReferencesHeld(env, e)
  {
    forall e | e in Decide(l, env, c).effects ensures ReferencesHeld(env, e) { CommandReferences(l, env, c, e); }
    match c
    case CreateInvoice(_, _, _, _, _, _, _) => CreateInvoiceGuarded(l, env, c);
    case IssueInvoice(id) => StatusGuarded(l, env, id, Issued);
    case VoidInvoice(id) => StatusGuarded(l, env, id, Voided);
    case CreateCreditNote(invoice, amount, reason, key) => CreateNoteGuarded(l, env, invoice, amount, reason, key);
    case IssueCreditNote(note) => IssueNoteGuarded(l, env, note);
    case VoidCreditNote(note, reason, key) => VoidNoteGuarded(l, env, note, reason, key);
    case _ => PaymentCommandGuarded(l, env, c);
  }

  lemma StepSafe(l: Ledger, env: Env, c: Command)
    requires Safe(l) && Fresh(l, env)
    ensures Safe(Step(l, env, c))
  {
    if Decide(l, env, c).Accept? {
      CommandGuarded(l, env, c);
      EffectsSafe(l, Decide(l, env, c).effects);
    }
  }

  lemma ProperPrefix(calls: seq<Call>, k: nat)
    requires Proper(calls) && k <= |calls|
    ensures Proper(calls[..k])
  {
    forall i: nat | i < k ensures FreshAt(calls[..k], i) {
      assert FreshAt(calls, i);
      assert calls[..k][..i] == calls[..i];
    }
  }

  lemma {:induction false} RunSafe(calls: seq<Call>)
    requires Proper(calls)
    ensures Safe(Run(calls))
  {
    if |calls| != 0 {
      var front := calls[..|calls| - 1];
      ProperPrefix(calls, |calls| - 1);
      RunSafe(front);
      assert FreshAt(calls, |calls| - 1);
      StepSafe(Run(front), calls[|calls| - 1].env, calls[|calls| - 1].command);
    }
  }

  /** The k-th call of a run acts on the safe state its predecessors left. */
  lemma RunNext(calls: seq<Call>, k: nat)
    requires Proper(calls) && k < |calls|
    ensures Safe(Run(calls[..k])) && Fresh(Run(calls[..k]), calls[k].env)
    ensures Run(calls[..k + 1]) == Step(Run(calls[..k]), calls[k].env, calls[k].command)
  {
    ProperPrefix(calls, k);
    RunSafe(calls[..k]);
    assert FreshAt(calls, k);
    assert calls[..k + 1][..k] == calls[..k];
  }

  // ---------- where the database has the last word ----------

  /** Reversing a payment that is not reversed fails exactly when the database refuses the row: for a
      blank reason, or a key that another reversal has. */
  lemma ReversalRefusedExactly(l: Ledger, env: Env, payment: Id, reason: string, key: Key)
    requires PaymentById(l.payments, payment).Some? && !Reversed(l.reversals, payment)
    ensures DecideReverse(l, env, payment, reason, key) == Reject(ConstraintViolation)
            <==> !DatabaseAccepts(l, AddReversal(Reversal(payment, reason, key, env.now)))
    ensures DecideReverse(l, env, payment, reason, key) == Reject(ConstraintViolation)
            <==> reason == "" || exists r | r in l.reversals :: r.key == key
  {
  }

  /** So does voiding an issued credit note that is not void. */
  lemma VoidRefusedExactly(l: Ledger, env: Env, note: Id, reason: string, key: Key)
    requires NoteById(l.notes, note).Some? && NoteById(l.notes, note).value.status == IssuedNote
    requires !NoteVoided(l.voids, note)
    ensures DecideVoidNote(l, env, note, reason, key) == Reject(ConstraintViolation)
            <==> !DatabaseAccepts(l, AddVoid(NoteVoid(note, reason, key, env.now)))
    ensures DecideVoidNote(l, env, note, reason, key) == Reject(ConstraintViolation)
            <==> reason == "" || exists v | v in l.voids :: v.key == key
  {
  }

  // ---------- keys are never used twice ----------

  /** What the unique indexes on reversal and void keys keep. */
  ghost predicate KeysUnique(l: Ledger) {
    && (forall i, j | 0 <= i < j < |l.reversals| :: l.reversals[i].key != l.reversals[j].key)
    && (forall i, j | 0 <= i < j < |l.voids| :: l.voids[i].key != l.voids[j].key)
  }

  lemma {:induction false} EffectsKeepKeys(l: Ledger, es: seq<Effect>)
    requires KeysUnique(l) && AllGuarded(l, es)
    ensures KeysUnique(ApplyAll(l, es))
  {
    if |es| != 0 { EffectsKeepKeys(l, es[..|es| - 1]); }
  }

  lemma {:induction false} RunKeysUnique(calls: seq<Call>)
    requires Proper(calls)
    ensures KeysUnique(Run(calls))
  {
    if |calls| != 0 {
      var n := |calls| - 1;
      ProperPrefix(calls, n);
      RunKeysUnique(calls[..n]);
      RunNext(calls, n);
      assert calls[..n + 1] == calls;
      var l, env, c := Run(calls[..n]), calls[n].env, calls[n].command;
      if Decide(l, env, c).Accept? {
        CommandGuarded(l, env, c);
        EffectsKeepKeys(l, Decide(l, env, c).effects);
      }
    }
  }

  // ---------- what this means for one invoice ----------

  lemma UnpayableIsUnpaid(l: Ledger, invoice: Id)
    requires Linked(l) && !Receivable(l, invoice)
    ensures Paid(l, invoice) == 0 && Credit(l, invoice) == 0
  {
    SumZero(l.allocations, GrossTerm(l.reversals, invoice));
    forall x | x in l.refundAllocations
      ensures TakenBackTerm(l.allocations, l.refunds, l.reversals, invoice)(x) == 0
    {
      assert SplitLinked(l, x);
    }
    SumZero(l.refundAllocations, TakenBackTerm(l.allocations, l.refunds, l.reversals, invoice));
    SumZero(l.notes, CreditTerm(l.voids, invoice));
  }

  /** Ledger safety: in every reachable state the balances of every invoice are in range, and
      an invoice that is not void reads PAID exactly when nothing is outstanding. */
  lemma ReachableInvoice(calls: seq<Call>, x: Invoice, now: int)
    requires Proper(calls) && x in Run(calls).invoices
    ensures var l := Run(calls); var b := Live(l, x, now);
            && 0 <= b.paid && 0 <= b.credit && 0 <= b.outstanding && b.paid + b.credit + b.outstanding == x.total
            && (x.status == Draft ==> b.paid == 0 && b.credit == 0)
            && (x.status == Voided ==> b.paid == 0)
            && (x.status != Voided ==> (b.effective == PaidUp <==> b.outstanding == 0))
  {
    var l := Run(calls);
    RunSafe(calls);
    PaidNonNegative(l, x.id);
    CreditNonNegative(l, x.id);
    assert Settled(l, x);
    InvoiceFound(l.invoices, x);
    if x.status == Draft { UnpayableIsUnpaid(l, x.id); }
  }

  predicate IsVoid(l: Ledger, invoice: Id) {
    var x := InvoiceById(l.invoices, invoice);
    x.Some? && x.value.status == Voided
  }

  lemma {:induction false} VoidKept(l: Ledger, es: seq<Effect>, invoice: Id)
    requires AllGuarded(l, es) && IsVoid(l, invoice)
    ensures IsVoid(ApplyAll(l, es), invoice)
  {
    if |es| != 0 {
      var front, e := es[..|es| - 1], es[|es| - 1];
      VoidKept(l, front, invoice);
      var l1 := ApplyAll(l, front);
      if e.AddInvoice? { InvoicesGrow(l1.invoices, e.invoice); }
      if e.SetStatus? { InvoiceByIdStatus(l1.invoices, e.id, e.status, invoice); }
    }
  }

  lemma VoidStep(l: Ledger, env: Env, c: Command, invoice: Id)
    requires Safe(l) && Fresh(l, env) && IsVoid(l, invoice)
    ensures IsVoid(Step(l, env, c), invoice)
  {
    if Decide(l, env, c).Accept? {
      CommandGuarded(l, env, c);
      VoidKept(l, Decide(l, env, c).effects, invoice);
    }
  }

  lemma VoidNext(calls: seq<Call>, k: nat, invoice: Id)
    requires Proper(calls) && k < |calls| && IsVoid(Run(calls[..k]), invoice)
    ensures IsVoid(Run(calls[..k + 1]), invoice)
  {
    RunNext(calls, k);
    VoidStep(Run(calls[..k]), calls[k].env, calls[k].command, invoice);
  }

  lemma {:induction false} VoidStays(calls: seq<Call>, k: nat, m: nat, invoice: Id)
    requires Proper(calls) && k <= m <= |calls|
    requires IsVoid(Run(calls[..k]), invoice)
    ensures IsVoid(Run(calls[..m]), invoice)
  {
    if k < m {
      VoidStays(calls, k, m - 1, invoice);
      VoidNext(calls, m - 1, invoice);
    }
  }

  /** A void invoice is void, and unpaid, for good: whatever is refunded or reversed later. */
  lemma VoidForever(calls: seq<Call>, k: nat, invoice: Id)
    requires Proper(calls) && k <= |calls|
    requires IsVoid(Run(calls[..k]), invoice)
    ensures IsVoid(Run(calls), invoice) && Paid(Run(calls), invoice) == 0
  {
    VoidStays(calls, k, |calls|, invoice);
    assert calls[..|calls|] == calls;
    RunSafe(calls);
    assert Settled(Run(calls), InvoiceById(Run(calls).invoices, invoice).value);
  }
}
