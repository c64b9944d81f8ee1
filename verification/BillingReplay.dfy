/** Exactly-once commands: what an idempotency key guarantees over any run. */
module BillingReplay {
  import opened Collections
  import opened Ordering
  import opened Billing
  import opened BillingSafety
  import opened BillingRuns

  predicate Keyed(c: Command) {
    c.RecordPayment? || c.RecordUnallocated? || c.AllocatePayment? || c.ReversePayment? || c.RefundPayment?
    || c.CreateCreditNote? || c.VoidCreditNote?
  }

  predicate PaymentRecorded(l: Ledger, invoice: Option<Id>, input: PaymentInput) {
    var p := PaymentByKey(l.payments, input.key);
    p.Some? && SamePayment(p.value, invoice, input)
  }

  predicate BatchRecorded(l: Ledger, payment: Id, batch: seq<AllocationInput>, key: Key) {
    && PaymentById(l.payments, payment).Some? && |batch| != 0 && !RepeatedInvoice(batch)
    && SameBatch(KeyedRows(l, payment, key), batch)
  }

  function ReversalOf(s: seq<Reversal>, payment: Id): Option<Reversal> {
    Find(s, (r: Reversal) => r.payment == payment)
  }

  function VoidOf(s: seq<NoteVoid>, note: Id): Option<NoteVoid> {
    Find(s, (v: NoteVoid) => v.note == note)
  }

  predicate ReversalRecorded(l: Ledger, payment: Id, key: Key) {
    var r := ReversalOf(l.reversals, payment);
    PaymentById(l.payments, payment).Some? && r.Some? && r.value.key == key
  }

  predicate RefundRecorded(l: Ledger, payment: Id, amount: Vnd, reason: string, key: Key) {
    var r := RefundByKey(l.refunds, payment, key);
    PaymentById(l.payments, payment).Some? && r.Some? && r.value.amount == amount && r.value.reason == reason
  }

  predicate NoteRecorded(l: Ledger, invoice: Id, amount: Vnd, reason: string, key: Key) {
    var n := NoteByKey(l.notes, key);
    n.Some? && n.value.invoice == invoice && n.value.amount == amount && n.value.reason == reason
  }

  predicate VoidRecorded(l: Ledger, note: Id, reason: string, key: Key) {
    var n, v := NoteById(l.notes, note), VoidOf(l.voids, note);
    n.Some? && n.value.status == IssuedNote && v.Some? && v.value.key == key && v.value.reason == reason
  }

  /** The ledger holds the facts of this keyed command. */
  predicate Recorded(l: Ledger, c: Command)
    requires Keyed(c)
  {
    match c
    case RecordPayment(invoice, input) => PaymentRecorded(l, Some(invoice), input)
    case RecordUnallocated(input) => PaymentRecorded(l, None, input)
    case AllocatePayment(payment, batch, key) => BatchRecorded(l, payment, batch, key)
    case ReversePayment(payment, _, key) => ReversalRecorded(l, payment, key)
    case RefundPayment(payment, amount, reason, key) => RefundRecorded(l, payment, amount, reason, key)
    case CreateCreditNote(invoice, amount, reason, key) => NoteRecorded(l, invoice, amount, reason, key)
    case VoidCreditNote(note, reason, key) => VoidRecorded(l, note, reason, key)
  }

  // ---------- a replay writes nothing ----------

  lemma ReplayWritesNothing(l: Ledger, env: Env, c: Command)
    requires Keyed(c) && Recorded(l, c)
    ensures Step(l, env, c) == l
    ensures Decide(l, env, c).Reject? ==> c.AllocatePayment? && Reversed(l.reversals, c.payment)
  {}

  // ---------- facts are never lost ----------

  lemma {:induction false} NoteByKeyIssued(s: seq<CreditNote>, id: Id, at: int, key: Key)
    ensures NoteByKey(Map(s, AsIssued(id, at)), key)
            == var n := NoteByKey(s, key); if n.None? then None else Some(AsIssued(id, at)(n.value))
  {
    if |s| != 0 {
      NoteByKeyIssued(s[1..], id, at, key);
      assert Map(s, AsIssued(id, at))[1..] == Map(s[1..], AsIssued(id, at));
    }
  }

  lemma PaymentRecordedKept(l: Ledger, e: Effect, invoice: Option<Id>, input: PaymentInput)
    requires PaymentRecorded(l, invoice, input)
    ensures PaymentRecorded(Apply(l, e), invoice, input)
  {
    if e.AddPayment? { FindSnoc(l.payments, e.payment, (x: Payment) => x.key == input.key); }
  }

  lemma ReversalRecordedKept(l: Ledger, e: Effect, payment: Id, key: Key)
    requires ReversalRecorded(l, payment, key)
    ensures ReversalRecorded(Apply(l, e), payment, key)
  {
    if e.AddPayment? { PaymentsGrow(l.payments, e.payment); }
    if e.AddReversal? { FindSnoc(l.reversals, e.reversal, (r: Reversal) => r.payment == payment); }
  }

  lemma RefundRecordedKept(l: Ledger, e: Effect, payment: Id, amount: Vnd, reason: string, key: Key)
    requires RefundRecorded(l, payment, amount, reason, key)
    ensures RefundRecorded(Apply(l, e), payment, amount, reason, key)
  {
    if e.AddPayment? { PaymentsGrow(l.payments, e.payment); }
    if e.AddRefund? { FindSnoc(l.refunds, e.refund, (x: Refund) => x.payment == payment && x.key == key); }
  }

  lemma NoteRecordedKept(l: Ledger, e: Effect, invoice: Id, amount: Vnd, reason: string, key: Key)
    requires NoteRecorded(l, invoice, amount, reason, key)
    ensures NoteRecorded(Apply(l, e), invoice, amount, reason, key)
  {
    if e.AddNote? { FindSnoc(l.notes, e.note, (x: CreditNote) => x.key == key); }
    if e.IssueNote? { NoteByKeyIssued(l.notes, e.id, e.at, key); }
  }

  lemma VoidRecordedKept(l: Ledger, e: Effect, note: Id, reason: string, key: Key)
    requires VoidRecorded(l, note, reason, key)
    ensures VoidRecorded(Apply(l, e), note, reason, key)
  {
    if e.AddNote? { NotesGrow(l.notes, e.note); }
    if e.IssueNote? { NoteByIdIssued(l.notes, e.id, e.at, note); }
    if e.AddVoid? { FindSnoc(l.voids, e.noteVoid, (v: NoteVoid) => v.note == note); }
  }

  /** An effect that adds no row under a batch's key leaves the batch as recorded. */
  lemma BatchRecordedKept(l: Ledger, e: Effect, payment: Id, batch: seq<AllocationInput>, key: Key)
    requires BatchRecorded(l, payment, batch, key)
    requires e.AddAllocation? ==> !(e.allocation.payment == payment && e.allocation.key == Some(key))
    ensures BatchRecorded(Apply(l, e), payment, batch, key)
  {
    if e.AddPayment? { PaymentsGrow(l.payments, e.payment); }
    if e.AddAllocation? {
      FilterSnoc(l.allocations, e.allocation, (a: Allocation) => a.payment == payment && a.key == Some(key));
    }
  }

  predicate OutsideBatch(e: Effect, c: Command) {
    e.AddAllocation? && c.AllocatePayment? ==> !(e.allocation.payment == c.payment && e.allocation.key == Some(c.key))
  }

  lemma RecordedKept(l: Ledger, e: Effect, c: Command)
    requires Keyed(c) && Recorded(l, c) && OutsideBatch(e, c)
    ensures Recorded(Apply(l, e), c)
  {
    match c
    case RecordPayment(invoice, input) => PaymentRecordedKept(l, e, Some(invoice), input);
    case RecordUnallocated(input) => PaymentRecordedKept(l, e, None, input);
    case AllocatePayment(payment, batch, key) => BatchRecordedKept(l, e, payment, batch, key);
    case ReversePayment(payment, _, key) => ReversalRecordedKept(l, e, payment, key);
    case RefundPayment(payment, amount, reason, key) => RefundRecordedKept(l, e, payment, amount, reason, key);
    case CreateCreditNote(invoice, amount, reason, key) => NoteRecordedKept(l, e, invoice, amount, reason, key);
    case VoidCreditNote(note, reason, key) => VoidRecordedKept(l, e, note, reason, key);
  }

  lemma {:induction false} AllRecordedKept(l: Ledger, es: seq<Effect>, c: Command)
    requires Keyed(c) && Recorded(l, c)
    requires forall e | e in es :: OutsideBatch(e, c)
    ensures Recorded(ApplyAll(l, es), c)
  {
    if |es| != 0 {
      AllRecordedKept(l, es[..|es| - 1], c);
      RecordedKept(ApplyAll(l, es[..|es| - 1]), es[|es| - 1], c);
    }
  }

  lemma {:induction false} BatchKeys(env: Env, payment: Id, key: Key, items: seq<AllocationInput>, k: nat, e: Effect)
    requires k <= |items| && e in BatchEffects(env, payment, key, items, k)
    ensures e.AddAllocation? && e.allocation.payment == payment && e.allocation.key == Some(key)
  {
    if k != 0 && e in BatchEffects(env, payment, key, items, k - 1) {
      BatchKeys(env, payment, key, items, k - 1, e);
    }
  }

  lemma {:induction false} SplitsAddNoAllocation(l: Ledger, env: Env, refund: Id, oldest: seq<Allocation>, amount: int,
                                                 k: nat)
    requires k <= |oldest|
    ensures forall e | e in Splits(l, env, refund, oldest, amount, k) :: e.AddSplit?
  {
    if k != 0 { SplitsAddNoAllocation(l, env, refund, oldest, amount, k - 1); }
  }

  /** No later command touches the rows of a recorded batch: its own key is taken. */
  lemma OutsideRecorded(l: Ledger, env: Env, c: Command, d: Command, e: Effect)
    requires Keyed(c) && Recorded(l, c)
    requires Decide(l, env, d).Accept? && e in Decide(l, env, d).effects
    ensures OutsideBatch(e, c)
  {
    if c.AllocatePayment? {
      match d
      case AllocatePayment(payment, batch, key) =>
        BatchKeys(env, payment, key, LockOrder(batch), |LockOrder(batch)|, e);
      case RefundPayment(payment, amount, reason, key) =>
        var oldest := OldestFirst(l, payment);
        SplitsAddNoAllocation(l, env, env.ulid(0), oldest, amount, |oldest|);
      case _ =>
    }
  }

  lemma RecordedForever(l: Ledger, env: Env, c: Command, d: Command)
    requires Keyed(c) && Recorded(l, c)
    ensures Recorded(Step(l, env, d), c)
  {
    if Decide(l, env, d).Accept? {
      var es := Decide(l, env, d).effects;
      forall e | e in es ensures OutsideBatch(e, c) { OutsideRecorded(l, env, c, d, e); }
      AllRecordedKept(l, es, c);
    }
  }

  // ---------- an accepted command is recorded ----------

  lemma {:induction false} BatchTable(l: Ledger, env: Env, payment: Id, key: Key, items: seq<AllocationInput>, k: nat)
    requires k <= |items|
    ensures var l' := ApplyAll(l, BatchEffects(env, payment, key, items, k));
            && l' == l.(allocations := l'.allocations)
            && l'.allocations == l.allocations
               + seq(k, j requires 0 <= j < k => BatchRow(env, payment, key, items[j], j))
  {
    if k != 0 {
      BatchTable(l, env, payment, key, items, k - 1);
      ApplySnoc(l, BatchEffects(env, payment, key, items, k - 1),
                AddAllocation(BatchRow(env, payment, key, items[k - 1], k - 1)));
    }
  }

  lemma {:induction false} FilterConcat<T>(s: seq<T>, t: seq<T>, p: T -> bool)
    ensures Filter(s + t, p) == Filter(s, p) + Filter(t, p)
  {
    if |t| == 0 {
      assert s + t == s;
    } else {
      var front, x := t[..|t| - 1], t[|t| - 1];
      FilterConcat(s, front, p);
      FilterSnoc(s + front, x, p);
      assert s + t == (s + front) + [x];
    }
  }

  function BatchRows(env: Env, payment: Id, key: Key, items: seq<AllocationInput>): seq<Allocation> {
    seq(|items|, j requires 0 <= j < |items| => BatchRow(env, payment, key, items[j], j))
  }

  lemma RowsMatchBatch(env: Env, payment: Id, key: Key, batch: seq<AllocationInput>)
    ensures SameBatch(BatchRows(env, payment, key, LockOrder(batch)), batch)
  {
    var items := LockOrder(batch);
    var rows := BatchRows(env, payment, key, items);
    SortMembers(batch, ByInvoice);
    forall x | x in batch ensures Exists(rows, (a: Allocation) => a.invoice == x.invoice && a.amount == x.amount) {
      var j :| 0 <= j < |items| && items[j] == x;
      assert rows[j] in rows;
    }
  }

  lemma KeyedRowsAdded(l: Ledger, env: Env, payment: Id, key: Key, items: seq<AllocationInput>)
    requires |KeyedRows(l, payment, key)| == 0
    ensures KeyedRows(ApplyAll(l, BatchEffects(env, payment, key, items, |items|)), payment, key)
            == BatchRows(env, payment, key, items)
  {
    var p := (a: Allocation) => a.payment == payment && a.key == Some(key);
    var rows := BatchRows(env, payment, key, items);
    BatchTable(l, env, payment, key, items, |items|);
    FilterConcat(l.allocations, rows, p);
    FilterAll(rows, p);
  }

  lemma BatchBecomesRecorded(l: Ledger, env: Env, payment: Id, batch: seq<AllocationInput>, key: Key)
    requires DecideAllocate(l, env, payment, batch, key).Accept?
    ensures BatchRecorded(Step(l, env, AllocatePayment(payment, batch, key)), payment, batch, key)
  {
    if |KeyedRows(l, payment, key)| == 0 {
      var items := LockOrder(batch);
      RowsMatchBatch(env, payment, key, batch);
      KeyedRowsAdded(l, env, payment, key, items);
      BatchTable(l, env, payment, key, items, |items|);
    }
  }

  lemma RefundBecomesRecorded(l: Ledger, env: Env, payment: Id, amount: Vnd, reason: string, key: Key)
    requires DecideRefund(l, env, payment, amount, reason, key).Accept?
    ensures RefundRecorded(Step(l, env, RefundPayment(payment, amount, reason, key)), payment, amount, reason, key)
  {
    if RefundByKey(l.refunds, payment, key).None? {
      var refund := Refund(env.ulid(0), payment, amount, reason, key, env.now);
      var oldest := OldestFirst(l, payment);
      var es := DecideRefund(l, env, payment, amount, reason, key).effects;
      FindSnoc(l.refunds, refund, (x: Refund) => x.payment == payment && x.key == key);
      SplitsAddNoAllocation(l, env, refund.id, oldest, amount, |oldest|);
      SplitsKeepRefunds(l, [AddRefund(refund)], Splits(l, env, refund.id, oldest, amount, |oldest|));
      OneEffect(l, AddRefund(refund));
    }
  }

  lemma {:induction false} SplitsKeepRefunds(l: Ledger, head: seq<Effect>, es: seq<Effect>)
    requires forall e | e in es :: e.AddSplit?
    ensures ApplyAll(l, head + es) == ApplyAll(l, head).(refundAllocations := ApplyAll(l, head + es).refundAllocations)
  {
    if |es| == 0 {
      assert head + es == head;
    } else {
      var front, e := es[..|es| - 1], es[|es| - 1];
      SplitsKeepRefunds(l, head, front);
      assert head + es == (head + front) + [e];
      ApplySnoc(l, head + front, e);
      assert e in es;
    }
  }

  lemma OneEffect(l: Ledger, e: Effect)
    ensures ApplyAll(l, [e]) == Apply(l, e)
  {
    assert [e][..0] == [];
  }

  lemma AddedPaymentRecorded(before: Ledger, after: Ledger, p: Payment, invoice: Option<Id>, input: PaymentInput)
    requires PaymentByKey(before.payments, input.key).None?
    requires after.payments == before.payments + [p]
    requires p.key == input.key && SamePayment(p, invoice, input)
    ensures PaymentRecorded(after, invoice, input)
  {
    FindSnoc(before.payments, p, (x: Payment) => x.key == input.key);
  }

  lemma TwoEffects(l: Ledger, e1: Effect, e2: Effect)
    ensures ApplyAll(l, [e1, e2]) == Apply(Apply(l, e1), e2)
  {
    assert [e1, e2] == [e1] + [e2];
    ApplySnoc(l, [e1], e2);
    OneEffect(l, e1);
  }

  lemma RecordPaymentBecomesRecorded(l: Ledger, env: Env, invoice: Id, input: PaymentInput)
    requires DecideRecordPayment(l, env, invoice, input).Accept?
    ensures PaymentRecorded(Step(l, env, RecordPayment(invoice, input)), Some(invoice), input)
  {
    if PaymentByKey(l.payments, input.key).None? {
      var es := DecideRecordPayment(l, env, invoice, input).effects;
      var after := Step(l, env, RecordPayment(invoice, input));
      TwoEffects(l, es[0], es[1]);
      assert es == [es[0], es[1]];
      assert after.payments == l.payments + [es[0].payment];
      AddedPaymentRecorded(l, after, es[0].payment, Some(invoice), input);
    }
  }

  lemma UnallocatedBecomesRecorded(l: Ledger, env: Env, input: PaymentInput)
    requires DecideRecordUnallocated(l, env, input).Accept?
    ensures PaymentRecorded(Step(l, env, RecordUnallocated(input)), None, input)
  {
    var es := DecideRecordUnallocated(l, env, input).effects;
    if |es| != 0 {
      OneEffect(l, es[0]);
      AddedPaymentRecorded(l, ApplyAll(l, es), es[0].payment, None, input);
    }
  }

  lemma ReversalBecomesRecorded(l: Ledger, env: Env, payment: Id, reason: string, key: Key)
    requires DecideReverse(l, env, payment, reason, key).Accept?
    ensures ReversalRecorded(Step(l, env, ReversePayment(payment, reason, key)), payment, key)
  {
    var es := DecideReverse(l, env, payment, reason, key).effects;
    if |es| != 0 {
      FindSnoc(l.reversals, es[0].reversal, (r: Reversal) => r.payment == payment);
      OneEffect(l, es[0]);
    }
  }

  lemma NoteBecomesRecorded(l: Ledger, env: Env, invoice: Id, amount: Vnd, reason: string, key: Key)
    requires DecideCreateNote(l, env, invoice, amount, reason, key).Accept?
    ensures NoteRecorded(Step(l, env, CreateCreditNote(invoice, amount, reason, key)), invoice, amount, reason, key)
  {
    var es := DecideCreateNote(l, env, invoice, amount, reason, key).effects;
    if |es| != 0 {
      FindSnoc(l.notes, es[0].note, (x: CreditNote) => x.key == key);
      OneEffect(l, es[0]);
    }
  }

  lemma VoidBecomesRecorded(l: Ledger, env: Env, note: Id, reason: string, key: Key)
    requires DecideVoidNote(l, env, note, reason, key).Accept?
    ensures VoidRecorded(Step(l, env, VoidCreditNote(note, reason, key)), note, reason, key)
  {
    var es := DecideVoidNote(l, env, note, reason, key).effects;
    if |es| != 0 {
      FindSnoc(l.voids, es[0].noteVoid, (v: NoteVoid) => v.note == note);
      OneEffect(l, es[0]);
    }
  }

  /** Whatever a keyed command replies when accepted, its facts are in the ledger. */
  lemma BecomesRecorded(l: Ledger, env: Env, c: Command)
    requires Keyed(c) && Decide(l, env, c).Accept?
    ensures Recorded(Step(l, env, c), c)
  {
    match c
    case RecordPayment(invoice, input) => RecordPaymentBecomesRecorded(l, env, invoice, input);
    case RecordUnallocated(input) => UnallocatedBecomesRecorded(l, env, input);
    case AllocatePayment(payment, batch, key) => BatchBecomesRecorded(l, env, payment, batch, key);
    case ReversePayment(payment, reason, key) => ReversalBecomesRecorded(l, env, payment, reason, key);
    case RefundPayment(payment, amount, reason, key) => RefundBecomesRecorded(l, env, payment, amount, reason, key);
    case CreateCreditNote(invoice, amount, reason, key) => NoteBecomesRecorded(l, env, invoice, amount, reason, key);
    case VoidCreditNote(note, reason, key) => VoidBecomesRecorded(l, env, note, reason, key);
  }

  // ---------- reusing a key for something else ----------

  function InvoicePair(x: AllocationInput): (Id, int) {
    (x.invoice, x.amount)
  }

  function RowPair(a: Allocation): (Id, int) {
    (a.invoice, a.amount)
  }

  /** Distinct entries that all occur in a list of the same length are that list, reordered. */
  lemma {:induction false} Pigeonhole<T>(s: seq<T>, t: seq<T>)
    requires Distinct(s) && |s| == |t|
    requires forall x | x in s :: x in t
    ensures multiset(s) == multiset(t)
  {
    if |s| != 0 {
      var front, x := s[..|s| - 1], s[|s| - 1];
      assert x in s;
      var k :| 0 <= k < |t| && t[k] == x;
      var rest := t[..k] + t[k + 1..];
      assert t == t[..k] + [x] + t[k + 1..];
      forall y | y in front ensures y in rest { assert y in s && y != x && y in t; }
      Pigeonhole(front, rest);
      assert s == front + [x];
    }
  }

  /** The length-plus-membership test accepts a replayed batch exactly when its invoices and
      amounts are, up to order, those recorded. */
  lemma SameBatchExact(rows: seq<Allocation>, batch: seq<AllocationInput>)
    requires !RepeatedInvoice(batch)
    ensures SameBatch(rows, batch) <==> multiset(Map(rows, RowPair)) == multiset(Map(batch, InvoicePair))
  {
    var s, t := Map(batch, InvoicePair), Map(rows, RowPair);
    if SameBatch(rows, batch) {
      forall y | y in s ensures y in t {
        var i :| 0 <= i < |s| && s[i] == y;
        assert batch[i] in batch;
        var a :| a in rows && a.invoice == batch[i].invoice && a.amount == batch[i].amount;
        var j :| 0 <= j < |rows| && rows[j] == a;
        assert t[j] == y;
      }
      Pigeonhole(s, t);
    } else if multiset(t) == multiset(s) {
      assert |multiset(t)| == |t| && |multiset(s)| == |s|;
      forall x | x in batch ensures exists a | a in rows :: a.invoice == x.invoice && a.amount == x.amount {
        var i :| 0 <= i < |batch| && batch[i] == x;
        assert s[i] in multiset(s);
        assert s[i] in t;
        var j :| 0 <= j < |t| && t[j] == s[i];
        assert rows[j] in rows;
      }
    }
  }

  /** Another amount or method, or both name a student and not the same one. */
  predicate PaymentDiffers(a: PaymentInput, b: PaymentInput) {
    || a.amount != b.amount || a.paidBy != b.paidBy
    || (a.student.Some? && b.student.Some? && a.student != b.student)
  }

  /** d reuses c's key, in the scope in which c's key is unique, with other details. */
  ghost predicate Clashes(c: Command, d: Command)
    requires Keyed(c)
  {
    match c
    case RecordPayment(invoice, input) =>
      || (d.RecordPayment? && d.input.key == input.key && (d.invoice != invoice || PaymentDiffers(input, d.input)))
      || (d.RecordUnallocated? && d.input.key == input.key)
    case RecordUnallocated(input) =>
      || (d.RecordUnallocated? && d.input.key == input.key && PaymentDiffers(input, d.input))
      || (d.RecordPayment? && d.input.key == input.key)
    case AllocatePayment(payment, batch, key) =>
      d.AllocatePayment? && d.payment == payment && d.key == key
      && multiset(Map(d.batch, InvoicePair)) != multiset(Map(batch, InvoicePair))
    case ReversePayment(payment, _, key) => d.ReversePayment? && (d.payment == payment) != (d.key == key)
    case RefundPayment(payment, amount, reason, key) =>
      d.RefundPayment? && d.payment == payment && d.key == key && (d.amount != amount || d.reason != reason)
    case CreateCreditNote(invoice, amount, reason, key) =>
      d.CreateCreditNote? && d.key == key && (d.invoice != invoice || d.amount != amount || d.reason != reason)
    case VoidCreditNote(note, reason, key) =>
      d.VoidCreditNote? && (if d.note == note then d.key != key || d.reason != reason else d.key == key)
  }

  lemma KeyOfOneReversal(l: Ledger, payment: Id, other: Id, key: Key)
    requires KeysUnique(l) && ReversalRecorded(l, payment, key) && other != payment
    ensures ReversalOf(l.reversals, other).Some? ==> ReversalOf(l.reversals, other).value.key != key
    ensures Exists(l.reversals, (r: Reversal) => r.key == key)
  {
    var x := ReversalOf(l.reversals, payment).value;
    var i :| 0 <= i < |l.reversals| && l.reversals[i] == x;
    forall y | y in l.reversals && y.payment == other ensures y.key != key {
      var j :| 0 <= j < |l.reversals| && l.reversals[j] == y;
    }
  }

  lemma KeyOfOneVoid(l: Ledger, note: Id, other: Id, key: Key)
    requires KeysUnique(l) && VoidOf(l.voids, note).Some? && VoidOf(l.voids, note).value.key == key && other != note
    ensures VoidOf(l.voids, other).Some? ==> VoidOf(l.voids, other).value.key != key
    ensures Exists(l.voids, (v: NoteVoid) => v.key == key)
  {
    var x := VoidOf(l.voids, note).value;
    var i :| 0 <= i < |l.voids| && l.voids[i] == x;
    forall y | y in l.voids && y.note == other ensures y.key != key {
      var j :| 0 <= j < |l.voids| && l.voids[j] == y;
    }
  }

  lemma ReuseRejected(l: Ledger, env: Env, c: Command, d: Command)
    requires Keyed(c) && Recorded(l, c) && Clashes(c, d) && KeysUnique(l)
    ensures Decide(l, env, d).Reject?
  {
    if c.ReversePayment? && d.payment != c.payment { KeyOfOneReversal(l, c.payment, d.payment, c.key); }
    if c.VoidCreditNote? && d.note != c.note { KeyOfOneVoid(l, c.note, d.note, c.key); }
    if c.AllocatePayment? {
      var rows := KeyedRows(l, c.payment, c.key);
      SameBatchExact(rows, c.batch);
      if !RepeatedInvoice(d.batch) { SameBatchExact(rows, d.batch); }
    }
  }

  // ---------- over runs ----------

  lemma RecordedAtNext(calls: seq<Call>, c: Command, m: nat)
    requires Proper(calls) && Keyed(c) && m < |calls|
    requires Recorded(Run(calls[..m]), c)
    ensures Recorded(Run(calls[..m + 1]), c)
  {
    RunNext(calls, m);
    RecordedForever(Run(calls[..m]), calls[m].env, c, calls[m].command);
  }

  lemma {:induction false} RecordedLater(calls: seq<Call>, c: Command, k: nat, m: nat)
    requires Proper(calls) && Keyed(c) && k <= m <= |calls|
    requires Recorded(Run(calls[..k]), c)
    ensures Recorded(Run(calls[..m]), c)
  {
    if k < m {
      RecordedLater(calls, c, k, m - 1);
      RecordedAtNext(calls, c, m - 1);
    }
  }

  lemma RecordedOnce(calls: seq<Call>, i: nat)
    requires Proper(calls) && i < |calls| && Keyed(calls[i].command)
    requires Decide(Run(calls[..i]), calls[i].env, calls[i].command).Accept?
    ensures Recorded(Run(calls[..i + 1]), calls[i].command)
  {
    RunNext(calls, i);
    BecomesRecorded(Run(calls[..i]), calls[i].env, calls[i].command);
  }

  /** Exactly once: after a keyed command was accepted, sending it again at any later point of
      the run changes nothing, and reusing its key with another amount or target is rejected. */
  lemma ExactlyOnce(calls: seq<Call>, i: nat, j: nat)
    requires Proper(calls) && i < j < |calls| && Keyed(calls[i].command)
    requires Decide(Run(calls[..i]), calls[i].env, calls[i].command).Accept?
    ensures calls[j].command == calls[i].command ==> Run(calls[..j + 1]) == Run(calls[..j])
    ensures Clashes(calls[i].command, calls[j].command)
            ==> Decide(Run(calls[..j]), calls[j].env, calls[j].command).Reject?
  {
    var c := calls[i].command;
    RecordedOnce(calls, i);
    RecordedLater(calls, c, i + 1, j);
    if calls[j].command == c {
      RunNext(calls, j);
      ReplayWritesNothing(Run(calls[..j]), calls[j].env, c);
    }
    if Clashes(c, calls[j].command) {
      ProperPrefix(calls, j);
      RunKeysUnique(calls[..j]);
      ReuseRejected(Run(calls[..j]), calls[j].env, c, calls[j].command);
    }
  }
}
