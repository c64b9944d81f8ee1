/** Time travel over runs: reading the final ledger as of t gives what was live at t. */
module BillingHistory {
  import opened Collections
  import opened Billing
  import opened BillingSafety
  import opened BillingRuns
  import opened BillingReplay
  import opened BillingTimeTravel

  ghost predicate StampedBy(l: Ledger, t: int) {
    && (forall x | x in l.invoices :: x.at <= t) && (forall x | x in l.payments :: x.at <= t)
    && (forall x | x in l.reversals :: x.at <= t) && (forall x | x in l.allocations :: x.at <= t)
    && (forall x | x in l.refunds :: x.at <= t) && (forall x | x in l.refundAllocations :: x.at <= t)
    && (forall x | x in l.notes :: x.at <= t && (x.issuedAt.Some? ==> x.issuedAt.value <= t))
    && (forall x | x in l.voids :: x.at <= t) && (forall x | x in l.history :: x.at <= t)
  }

  function StampOf(e: Effect): int {
    match e
    case AddInvoice(x) => x.at
    case SetStatus(_, _, at) => at
    case AddPayment(x) => x.at
    case AddReversal(x) => x.at
    case AddAllocation(x) => x.at
    case AddRefund(x) => x.at
    case AddSplit(x) => x.at
    case AddNote(x) => x.at
    case IssueNote(_, at) => at
    case AddVoid(x) => x.at
  }

  // ---------- every row operation keeps the dates in order ----------

  lemma {:induction false} LatestBounded(h: seq<StatusEntry>, invoice: Id)
    ensures Latest(h, invoice).Some? ==> Latest(h, invoice).value in h
  {
    if |h| != 0 { LatestBounded(h[..|h| - 1], invoice); }
  }

  lemma LatestSnoc(h: seq<StatusEntry>, e: StatusEntry, invoice: Id)
    requires forall x | x in h :: x.at <= e.at
    ensures Latest(h + [e], invoice) == if e.invoice == invoice then Some(e) else Latest(h, invoice)
  {
    LatestBounded(h, invoice);
    assert (h + [e])[..|h|] == h;
  }

  lemma StatusDated(l: Ledger, id: Id, status: InvoiceStatus, at: int)
    requires Dated(l) && StampedBy(l, at)
    ensures Dated(Apply(l, SetStatus(id, status, at)))
  {
    var l' := Apply(l, SetStatus(id, status, at));
    forall x | x in l'.invoices ensures InvoiceDated(l'.history, x) {
      LatestSnoc(l.history, StatusEntry(id, status, at), x.id);
      var i :| 0 <= i < |l'.invoices| && l'.invoices[i] == x;
      assert l.invoices[i] in l.invoices;
    }
    assert forall x | x in l.refundAllocations :: SplitDated(l, x) ==> SplitDated(l', x);
  }

  lemma InvoiceAddedDated(l: Ledger, x: Invoice)
    requires Dated(l) && StampedBy(l, x.at) && InvoiceById(l.invoices, x.id).None?
    ensures Dated(Apply(l, AddInvoice(x)))
  {
    var l' := Apply(l, AddInvoice(x));
    forall y | y in l'.invoices ensures InvoiceDated(l'.history, y) {
      LatestSnoc(l.history, StatusEntry(x.id, x.status, x.at), y.id);
      assert y in l.invoices || y == x;
    }
    assert forall s | s in l.refundAllocations :: SplitDated(l, s) ==> SplitDated(l', s);
  }

  lemma SplitsStayDated(l: Ledger, e: Effect)
    requires e.AddAllocation? || e.AddRefund? || e.AddSplit?
    requires Dated(l) && StampedBy(l, StampOf(e)) && Guard(l, e)
    ensures Dated(Apply(l, e))
  {
    var l' := Apply(l, e);
    if e.AddAllocation? { AllocationsGrow(l.allocations, e.allocation); }
    if e.AddRefund? { RefundsGrow(l.refunds, e.refund); }
    forall x | x in l'.refundAllocations ensures SplitDated(l', x) {
      if x in l.refundAllocations { assert SplitDated(l, x); }
    }
  }

  lemma IssueDated(l: Ledger, id: Id, at: int)
    requires Dated(l) && StampedBy(l, at)
    ensures Dated(Apply(l, IssueNote(id, at)))
  {
    var l' := Apply(l, IssueNote(id, at));
    forall n | n in l'.notes ensures NoteDated(n) {
      var i :| 0 <= i < |l'.notes| && l'.notes[i] == n;
      assert l.notes[i] in l.notes;
    }
    assert forall x | x in l.refundAllocations :: SplitDated(l, x) ==> SplitDated(l', x);
  }

  lemma EffectDated(l: Ledger, e: Effect)
    requires Dated(l) && StampedBy(l, StampOf(e)) && Guard(l, e)
    requires e.AddNote? ==> e.note.issuedAt == None
    ensures Dated(Apply(l, e))
  {
    match e
    case AddInvoice(x) => InvoiceAddedDated(l, x);
    case SetStatus(id, status, at) => StatusDated(l, id, status, at);
    case AddAllocation(_) => SplitsStayDated(l, e);
    case AddRefund(_) => SplitsStayDated(l, e);
    case AddSplit(_) => SplitsStayDated(l, e);
    case IssueNote(id, at) => IssueDated(l, id, at);
    case _ => assert forall x | x in l.refundAllocations :: SplitDated(l, x) ==> SplitDated(Apply(l, e), x);
  }

  lemma EffectStamped(l: Ledger, e: Effect)
    requires StampedBy(l, StampOf(e))
    requires e.AddNote? ==> e.note.issuedAt == None
    ensures StampedBy(Apply(l, e), StampOf(e))
  {
    if e.SetStatus? {
      forall x | x in Apply(l, e).invoices ensures x.at <= e.at {
        var i :| 0 <= i < |l.invoices| && Apply(l, e).invoices[i] == x;
        assert l.invoices[i] in l.invoices;
      }
    }
    if e.IssueNote? {
      forall x | x in Apply(l, e).notes ensures x.at <= e.at && (x.issuedAt.Some? ==> x.issuedAt.value <= e.at) {
        var i :| 0 <= i < |l.notes| && Apply(l, e).notes[i] == x;
        assert l.notes[i] in l.notes;
      }
    }
  }

  /** Effects a command may write at an instant. */
  predicate WrittenAt(e: Effect, now: int) {
    StampOf(e) == now && (e.AddNote? ==> e.note.issuedAt == None)
  }

  lemma {:induction false} EffectsDated(l: Ledger, es: seq<Effect>, now: int)
    requires Dated(l) && StampedBy(l, now) && AllGuarded(l, es)
    requires forall e | e in es :: WrittenAt(e, now)
    ensures Dated(ApplyAll(l, es)) && StampedBy(ApplyAll(l, es), now)
  {
    if |es| != 0 {
      var front, e := es[..|es| - 1], es[|es| - 1];
      EffectsDated(l, front, now);
      assert WrittenAt(e, now);
      EffectDated(ApplyAll(l, front), e);
      EffectStamped(ApplyAll(l, front), e);
    }
  }

  lemma {:induction false} BatchWritten(env: Env, payment: Id, key: Key, items: seq<AllocationInput>, k: nat)
    requires k <= |items|
    ensures forall e | e in BatchEffects(env, payment, key, items, k) :: WrittenAt(e, env.now)
  {
    if k != 0 { BatchWritten(env, payment, key, items, k - 1); }
  }

  lemma {:induction false} SplitsWritten(l: Ledger, env: Env, refund: Id, oldest: seq<Allocation>, amount: int, k: nat)
    requires k <= |oldest|
    ensures forall e | e in Splits(l, env, refund, oldest, amount, k) :: WrittenAt(e, env.now)
  {
    if k != 0 { SplitsWritten(l, env, refund, oldest, amount, k - 1); }
  }

  /** A command stamps everything it writes with its own transaction time. */
  lemma DecisionWritten(l: Ledger, env: Env, c: Command, e: Effect)
    requires Decide(l, env, c).Accept? && e in Decide(l, env, c).effects
    ensures WrittenAt(e, env.now)
  {
    match c
    case AllocatePayment(payment, batch, key) =>
      BatchWritten(env, payment, key, LockOrder(batch), |LockOrder(batch)|);
    case RefundPayment(payment, amount, reason, key) =>
      SplitsWritten(l, env, env.ulid(0), OldestFirst(l, payment), amount, |OldestFirst(l, payment)|);
    case _ =>
  }

  lemma StepDated(l: Ledger, env: Env, c: Command)
    requires Safe(l) && Fresh(l, env) && Dated(l) && StampedBy(l, env.now)
    ensures Dated(Step(l, env, c)) && StampedBy(Step(l, env, c), env.now)
  {
    if Decide(l, env, c).Accept? {
      var es := Decide(l, env, c).effects;
      CommandGuarded(l, env, c);
      forall e | e in es ensures WrittenAt(e, env.now) { DecisionWritten(l, env, c, e); }
      EffectsDated(l, es, env.now);
    }
  }

  lemma StampedLater(l: Ledger, t: int, t': int)
    requires StampedBy(l, t) && t <= t'
    ensures StampedBy(l, t')
  {}

  lemma DatedNext(calls: seq<Call>, k: nat, t: int)
    requires Proper(calls) && k < |calls| && calls[k].env.now <= t
    requires Dated(Run(calls[..k])) && StampedBy(Run(calls[..k]), calls[k].env.now)
    ensures Dated(Run(calls[..k + 1])) && StampedBy(Run(calls[..k + 1]), t)
  {
    RunNext(calls, k);
    StepDated(Run(calls[..k]), calls[k].env, calls[k].command);
    StampedLater(Run(calls[..k + 1]), calls[k].env.now, t);
  }

  lemma {:induction false} RunDated(calls: seq<Call>, k: nat, t: int)
    requires Proper(calls) && k <= |calls|
    requires forall i | 0 <= i < k :: calls[i].env.now <= t
    ensures Dated(Run(calls[..k])) && StampedBy(Run(calls[..k]), t)
  {
    if k != 0 {
      RunDated(calls, k - 1, calls[k - 1].env.now);
      DatedNext(calls, k - 1, t);
    }
  }

  // ---------- what is dated within the boundary is not cut ----------

  lemma MapSame<T>(s: seq<T>, f: T -> T)
    requires forall x | x in s :: f(x) == x
    ensures Map(s, f) == s
  {}

  lemma InvoicesNotCut(l: Ledger, b: Boundary, t: int)
    requires Dated(l) && StampedBy(l, t) && Visible(t, b)
    ensures Map(Filter(l.invoices, SeenInvoice(b)), StatusThen(l.history, b)) == l.invoices
    ensures Filter(l.history, SeenEntry(b)) == l.history
  {
    FilterAll(l.invoices, SeenInvoice(b));
    FilterAll(l.history, SeenEntry(b));
    forall x | x in l.invoices ensures StatusThen(l.history, b)(x) == x { assert InvoiceDated(l.history, x); }
    MapSame(l.invoices, StatusThen(l.history, b));
  }

  lemma NotesNotCut(l: Ledger, b: Boundary, t: int)
    requires Dated(l) && StampedBy(l, t) && Visible(t, b)
    ensures Map(Filter(l.notes, SeenNote(b)), NoteThen(b)) == l.notes
  {
    FilterAll(l.notes, SeenNote(b));
    forall n | n in l.notes ensures NoteThen(b)(n) == n { assert NoteDated(n); }
    MapSame(l.notes, NoteThen(b));
  }

  lemma FactsNotCut(l: Ledger, b: Boundary, t: int)
    requires StampedBy(l, t) && Visible(t, b)
    ensures Filter(l.payments, SeenPayment(b)) == l.payments && Filter(l.reversals, SeenReversal(b)) == l.reversals
    ensures Filter(l.allocations, SeenAllocation(b)) == l.allocations && Filter(l.refunds, SeenRefund(b)) == l.refunds
    ensures Filter(l.refundAllocations, SeenSplit(b)) == l.refundAllocations && Filter(l.voids, SeenVoid(b)) == l.voids
  {
    FilterAll(l.payments, SeenPayment(b));
    FilterAll(l.reversals, SeenReversal(b));
    FilterAll(l.allocations, SeenAllocation(b));
    FilterAll(l.refunds, SeenRefund(b));
    FilterAll(l.refundAllocations, SeenSplit(b));
    FilterAll(l.voids, SeenVoid(b));
  }

  lemma NothingCut(l: Ledger, b: Boundary, t: int)
    requires Dated(l) && StampedBy(l, t) && Visible(t, b)
    ensures Cut(l, b) == l
  {
    InvoicesNotCut(l, b, t);
    NotesNotCut(l, b, t);
    FactsNotCut(l, b, t);
  }

  // ---------- what is dated beyond the boundary is cut off ----------

  lemma MapSnoc<T>(s: seq<T>, x: T, f: T -> T)
    ensures Map(s + [x], f) == Map(s, f) + [f(x)]
  {}

  lemma {:induction false} FilterMapped<T>(s: seq<T>, f: T -> T, p: T -> bool)
    requires forall x | x in s :: p(f(x)) == p(x)
    ensures Filter(Map(s, f), p) == Map(Filter(s, p), f)
  {
    if |s| != 0 {
      var front, x := s[..|s| - 1], s[|s| - 1];
      FilterMapped(front, f, p);
      assert s == front + [x];
      MapSnoc(front, x, f);
      FilterSnoc(Map(front, f), f(x), p);
      FilterSnoc(front, x, p);
      assert x in s;
      if p(x) { MapSnoc(Filter(front, p), x, f); }
    }
  }

  lemma MapTwice<T>(s: seq<T>, f: T -> T, g: T -> T, h: T -> T)
    requires forall x | x in s :: g(f(x)) == h(x)
    ensures Map(Map(s, f), g) == Map(s, h)
  {
    forall i | 0 <= i < |s| ensures g(f(s[i])) == h(s[i]) { assert s[i] in s; }
  }

  lemma StatusSame(h: seq<StatusEntry>, e: StatusEntry, b: Boundary, s: seq<Invoice>)
    requires !Visible(e.at, b)
    ensures Map(s, StatusThen(h + [e], b)) == Map(s, StatusThen(h, b))
  {
    FilterSnoc(h, e, SeenEntry(b));
    assert Filter(h + [e], SeenEntry(b)) == Filter(h, SeenEntry(b));
    forall x: Invoice ensures StatusThen(h + [e], b)(x) == StatusThen(h, b)(x) {}
  }

  lemma LateStatusCut(l: Ledger, id: Id, status: InvoiceStatus, at: int, b: Boundary)
    requires !Visible(at, b)
    ensures Cut(Apply(l, SetStatus(id, status, at)), b) == Cut(l, b)
  {
    var e := StatusEntry(id, status, at);
    FilterSnoc(l.history, e, SeenEntry(b));
    FilterMapped(l.invoices, WithStatus(id, status), SeenInvoice(b));
    StatusSame(l.history, e, b, Map(Filter(l.invoices, SeenInvoice(b)), WithStatus(id, status)));
    MapTwice(Filter(l.invoices, SeenInvoice(b)), WithStatus(id, status), StatusThen(l.history, b),
             StatusThen(l.history, b));
  }

  lemma LateIssueCut(l: Ledger, id: Id, at: int, b: Boundary)
    requires UniqueNotes(l.notes) && Dated(l) && Guard(l, IssueNote(id, at)) && !Visible(at, b)
    ensures Cut(Apply(l, IssueNote(id, at)), b) == Cut(l, b)
  {
    FilterMapped(l.notes, AsIssued(id, at), SeenNote(b));
    FilterMembers(l.notes, SeenNote(b));
    forall n | n in Filter(l.notes, SeenNote(b)) ensures NoteThen(b)(AsIssued(id, at)(n)) == NoteThen(b)(n) {
      NoteFound(l.notes, n);
      assert NoteDated(n);
    }
    MapTwice(Filter(l.notes, SeenNote(b)), AsIssued(id, at), NoteThen(b), NoteThen(b));
  }

  lemma LateInvoiceCut(l: Ledger, x: Invoice, b: Boundary)
    requires !Visible(x.at, b)
    ensures Cut(Apply(l, AddInvoice(x)), b) == Cut(l, b)
  {
    var e := StatusEntry(x.id, x.status, x.at);
    FilterSnoc(l.invoices, x, SeenInvoice(b));
    FilterSnoc(l.history, e, SeenEntry(b));
    StatusSame(l.history, e, b, Filter(l.invoices, SeenInvoice(b)));
  }

  lemma LateFactCut(l: Ledger, e: Effect, b: Boundary)
    requires !e.AddInvoice? && !e.SetStatus? && !e.IssueNote? && !Visible(StampOf(e), b)
    ensures Cut(Apply(l, e), b) == Cut(l, b)
  {
    match e
    case AddPayment(x) => FilterSnoc(l.payments, x, SeenPayment(b));
    case AddReversal(x) => FilterSnoc(l.reversals, x, SeenReversal(b));
    case AddAllocation(x) => FilterSnoc(l.allocations, x, SeenAllocation(b));
    case AddRefund(x) => FilterSnoc(l.refunds, x, SeenRefund(b));
    case AddSplit(x) => FilterSnoc(l.refundAllocations, x, SeenSplit(b));
    case AddNote(x) => FilterSnoc(l.notes, x, SeenNote(b));
    case AddVoid(x) => FilterSnoc(l.voids, x, SeenVoid(b));
  }

  lemma LateEffectCut(l: Ledger, e: Effect, b: Boundary)
    requires UniqueNotes(l.notes) && Dated(l) && Guard(l, e) && !Visible(StampOf(e), b)
    ensures Cut(Apply(l, e), b) == Cut(l, b)
  {
    match e
    case AddInvoice(x) => LateInvoiceCut(l, x, b);
    case SetStatus(id, status, at) => LateStatusCut(l, id, status, at, b);
    case IssueNote(id, at) => LateIssueCut(l, id, at, b);
    case _ => LateFactCut(l, e, b);
  }

  lemma {:induction false} LateEffectsCut(l: Ledger, es: seq<Effect>, now: int, b: Boundary)
    requires Safe(l) && Dated(l) && StampedBy(l, now) && AllGuarded(l, es) && !Visible(now, b)
    requires forall e | e in es :: WrittenAt(e, now)
    ensures Cut(ApplyAll(l, es), b) == Cut(l, b)
  {
    if |es| != 0 {
      var front, e := es[..|es| - 1], es[|es| - 1];
      LateEffectsCut(l, front, now, b);
      EffectsSafe(l, front);
      EffectsDated(l, front, now);
      assert WrittenAt(e, now);
      LateEffectCut(ApplyAll(l, front), e, b);
    }
  }

  lemma LateStepCut(l: Ledger, env: Env, c: Command, b: Boundary)
    requires Safe(l) && Fresh(l, env) && Dated(l) && StampedBy(l, env.now) && !Visible(env.now, b)
    ensures Cut(Step(l, env, c), b) == Cut(l, b)
  {
    if Decide(l, env, c).Accept? {
      var es := Decide(l, env, c).effects;
      CommandGuarded(l, env, c);
      forall e | e in es ensures WrittenAt(e, env.now) { DecisionWritten(l, env, c, e); }
      LateEffectsCut(l, es, env.now, b);
    }
  }

  // ---------- time travel ----------

  /** The first k calls of a run are those stamped within the boundary. */
  ghost predicate SplitAt(calls: seq<Call>, b: Boundary, k: nat) {
    && k <= |calls|
    && (forall i | 0 <= i < k :: Visible(calls[i].env.now, b))
    && (forall i | k <= i < |calls| :: !Visible(calls[i].env.now, b))
  }

  lemma CutNext(calls: seq<Call>, b: Boundary, m: nat)
    requires Proper(calls) && m < |calls| && !Visible(calls[m].env.now, b)
    ensures Cut(Run(calls[..m + 1]), b) == Cut(Run(calls[..m]), b)
  {
    RunNext(calls, m);
    RunDated(calls, m, calls[m].env.now);
    LateStepCut(Run(calls[..m]), calls[m].env, calls[m].command, b);
  }

  lemma {:induction false} CutOfRun(calls: seq<Call>, b: Boundary, k: nat, m: nat)
    requires Proper(calls) && SplitAt(calls, b, k) && k <= m <= |calls|
    ensures Cut(Run(calls[..m]), b) == Run(calls[..k])
  {
    if k < m {
      CutOfRun(calls, b, k, m - 1);
      CutNext(calls, b, m - 1);
    } else {
      RunNotCut(calls, b, k);
    }
  }

  lemma RunNotCut(calls: seq<Call>, b: Boundary, k: nat)
    requires Proper(calls) && SplitAt(calls, b, k)
    ensures Cut(Run(calls[..k]), b) == Run(calls[..k])
  {
    if k != 0 {
      RunDated(calls, k, calls[k - 1].env.now);
      NothingCut(Run(calls[..k]), b, calls[k - 1].env.now);
    }
  }

  /** Cutting the final ledger at a boundary rebuilds, table by table, the ledger as it stood
      after exactly the calls stamped within it. */
  lemma CutIsThen(calls: seq<Call>, b: Boundary, k: nat)
    requires Proper(calls) && SplitAt(calls, b, k)
    ensures Cut(Run(calls), b) == Run(calls[..k])
  {
    CutOfRun(calls, b, k, |calls|);
    assert calls[..|calls|] == calls;
  }

  lemma InvoiceCut(l: Ledger, x: Invoice, b: Boundary)
    requires x in l.invoices && Visible(x.at, b)
    ensures x.(status := HistoricalStatus(l.history, x.id, b)) in Cut(l, b).invoices
  {
    var seen := Filter(l.invoices, SeenInvoice(b));
    FilterMembers(l.invoices, SeenInvoice(b));
    var i :| 0 <= i < |seen| && seen[i] == x;
    assert Cut(l, b).invoices[i] == x.(status := HistoricalStatus(l.history, x.id, b));
  }

  /** Time travel is exact: for every run and boundary, the as-of projection of the final
      ledger is the live projection of the ledger as it then stood. */
  lemma TimeTravel(calls: seq<Call>, b: Boundary, k: nat, x: Invoice)
    requires Proper(calls) && SplitAt(calls, b, k)
    requires x in Run(calls).invoices && Visible(x.at, b)
    ensures var earlier := InvoiceById(Run(calls[..k]).invoices, x.id);
            earlier.Some? && AsOf(Run(calls), x, b) == Live(Run(calls[..k]), earlier.value, b.t)
  {
    var l := Run(calls);
    RunSafe(calls);
    WholeRunDated(calls);
    AsOfIsLiveOfCut(l, x, b);
    CutIsThen(calls, b, k);
    var x' := x.(status := HistoricalStatus(l.history, x.id, b));
    InvoiceCut(l, x, b);
    PrefixFinds(calls, k, x');
  }

  lemma WholeRunDated(calls: seq<Call>)
    requires Proper(calls)
    ensures Dated(Run(calls))
  {
    assert calls[..|calls|] == calls;
    if |calls| != 0 { RunDated(calls, |calls|, calls[|calls| - 1].env.now); }
  }

  lemma PrefixFinds(calls: seq<Call>, k: nat, x: Invoice)
    requires Proper(calls) && k <= |calls| && x in Run(calls[..k]).invoices
    ensures InvoiceById(Run(calls[..k]).invoices, x.id) == Some(x)
  {
    ProperPrefix(calls, k);
    RunSafe(calls[..k]);
    InvoiceFound(Run(calls[..k]).invoices, x);
  }

  /** The i-th call came no later than an inclusive boundary, or before an exclusive one. */
  ghost predicate CameBy(calls: seq<Call>, b: Boundary, i: nat)
    requires i < |calls|
  {
    calls[i].env.now < b.t || (b.Inclusive? && calls[i].env.now == b.t)
  }

  /** In the words of the calls: after the first k calls, which are those that came by the boundary, an
      invoice read as it does in the final ledger as of the boundary. */
  lemma ReadsAsThen(calls: seq<Call>, b: Boundary, k: nat, x: Invoice)
    requires Proper(calls) && k <= |calls| && forall i: nat | i < |calls| :: CameBy(calls, b, i) <==> i < k
    requires x in Run(calls[..k]).invoices
    ensures exists later | later in Run(calls).invoices && later.id == x.id ::
              AsOf(Run(calls), later, b) == Live(Run(calls[..k]), x, b.t)
  {
    forall i: nat | i < |calls| ensures Visible(calls[i].env.now, b) <==> CameBy(calls, b, i) {}
    CutIsThen(calls, b, k);
    var seen := Filter(Run(calls).invoices, SeenInvoice(b));
    FilterMembers(Run(calls).invoices, SeenInvoice(b));
    assert Cut(Run(calls), b).invoices == Map(seen, StatusThen(Run(calls).history, b));
    var i :| 0 <= i < |seen| && Map(seen, StatusThen(Run(calls).history, b))[i] == x;
    assert seen[i] in seen;
    TimeTravel(calls, b, k, seen[i]);
    PrefixFinds(calls, k, x);
  }
}
