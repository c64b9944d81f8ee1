/** The refund waterfall: how a refund is split, and why its last check cannot fail. */
module BillingRefunds {
  import opened Collections
  import opened Ordering
  import opened Billing
  import opened BillingSafety

  function PaymentOf(l: Ledger, x: RefundAllocation): Option<Id> {
    var r := RefundById(l.refunds, x.refund);
    if r.None? then None else Some(r.value.payment)
  }

  function SplitOfPayment(l: Ledger, payment: Id): RefundAllocation -> int {
    (x: RefundAllocation) => if PaymentOf(l, x) == Some(payment) then x.amount else 0
  }

  function TakenAcross(payment: Id): Allocation -> RefundAllocation -> int {
    (a: Allocation) => (x: RefundAllocation) => if a.payment == payment && x.allocation == a.id then x.amount else 0
  }

  function TakenDown(payment: Id): RefundAllocation -> Allocation -> int {
    (x: RefundAllocation) => (a: Allocation) => if a.payment == payment && x.allocation == a.id then x.amount else 0
  }

  function TakenOfPayment(splits: seq<RefundAllocation>, payment: Id): Allocation -> int {
    (a: Allocation) => if a.payment == payment then Taken(splits, a.id) else 0
  }

  lemma TakenByPayment(l: Ledger, payment: Id)
    requires UniqueIds(l) && SplitsLinked(l)
    ensures Sum(l.allocations, TakenOfPayment(l.refundAllocations, payment))
            == Sum(l.refundAllocations, SplitOfPayment(l, payment))
  {
    var across, down := TakenAcross(payment), TakenDown(payment);
    var group, w := TakenOfPayment(l.refundAllocations, payment), SplitOfPayment(l, payment);
    forall a | a in l.allocations ensures group(a) == Sum(l.refundAllocations, across(a)) {
      if a.payment == payment {
        SumSame(l.refundAllocations, TakenTerm(a.id), across(a));
      } else {
        SumZero(l.refundAllocations, across(a));
      }
    }
    forall x | x in l.refundAllocations ensures Sum(l.allocations, down(x)) == w(x) {
      assert SplitLinked(l, x);
      var a := AllocationById(l.allocations, x.allocation).value;
      forall b | b in l.allocations && b.id == x.allocation ensures b == a { AllocationFound(l.allocations, b); }
      SumSingle(l.allocations, a, w(x), down(x));
    }
    SumExchange(l.allocations, l.refundAllocations, across, down, group, w);
  }

  function SplitAcross(payment: Id): Refund -> RefundAllocation -> int {
    (r: Refund) => (x: RefundAllocation) => if r.payment == payment && x.refund == r.id then x.amount else 0
  }

  function SplitDown(payment: Id): RefundAllocation -> Refund -> int {
    (x: RefundAllocation) => (r: Refund) => if r.payment == payment && x.refund == r.id then x.amount else 0
  }

  function SplitOfRefund(splits: seq<RefundAllocation>, payment: Id): Refund -> int {
    (r: Refund) => if r.payment == payment then Split(splits, r.id) else 0
  }

  lemma SplitByPayment(l: Ledger, payment: Id)
    requires UniqueIds(l) && SplitsLinked(l)
    ensures Sum(l.refunds, SplitOfRefund(l.refundAllocations, payment))
            == Sum(l.refundAllocations, SplitOfPayment(l, payment))
  {
    var across, down := SplitAcross(payment), SplitDown(payment);
    var group, w := SplitOfRefund(l.refundAllocations, payment), SplitOfPayment(l, payment);
    forall r | r in l.refunds ensures group(r) == Sum(l.refundAllocations, across(r)) {
      if r.payment == payment {
        SumSame(l.refundAllocations, SplitTerm(r.id), across(r));
      } else {
        SumZero(l.refundAllocations, across(r));
      }
    }
    forall x | x in l.refundAllocations ensures Sum(l.refunds, down(x)) == w(x) {
      assert SplitLinked(l, x);
      var r := RefundById(l.refunds, x.refund).value;
      forall b | b in l.refunds && b.id == x.refund ensures b == r { RefundFound(l.refunds, b); }
      SumSingle(l.refunds, r, w(x), down(x));
    }
    SumExchange(l.refunds, l.refundAllocations, across, down, group, w);
  }

  /** A payment's unallocated refunds are its refunds less what its allocations gave back. */
  lemma UnallocatedIsRest(l: Ledger, payment: Id)
    requires UniqueIds(l) && SplitsLinked(l)
    ensures UnallocatedRefunds(l, payment)
            == Refunds(l.refunds, payment) - Sum(l.allocations, TakenOfPayment(l.refundAllocations, payment))
  {
    TakenByPayment(l, payment);
    SplitByPayment(l, payment);
    SumAdds(l.refunds, UnallocatedTerm(l.refundAllocations, payment), SplitOfRefund(l.refundAllocations, payment),
            RefundsTerm(payment));
  }

  /** What a payment's allocations still hold, added up over the waterfall's list. */
  lemma AvailableOfPayment(l: Ledger, payment: Id)
    ensures Sum(OldestFirst(l, payment), AvailableTerm(l))
            == Allocated(l.allocations, payment) - Sum(l.allocations, TakenOfPayment(l.refundAllocations, payment))
  {
    var mine := (a: Allocation) => a.payment == payment;
    var g := (a: Allocation) => if a.payment == payment then Available(l, a) else 0;
    SumSort(AllocationsOf(l, payment), Older, AvailableTerm(l));
    assert AllocationsOf(l, payment) == Filter(l.allocations, mine);
    SumFilter(l.allocations, mine, AvailableTerm(l), g);
    SumAdds(l.allocations, g, TakenOfPayment(l.refundAllocations, payment), AllocatedTerm(payment));
  }

  lemma OldestMembers(l: Ledger, payment: Id)
    ensures forall a :: a in OldestFirst(l, payment) <==> a in l.allocations && a.payment == payment
  {
    FilterMembers(l.allocations, (a: Allocation) => a.payment == payment);
    SortMembers(AllocationsOf(l, payment), Older);
  }

  ghost predicate Holding(l: Ledger, oldest: seq<Allocation>) {
    forall a | a in oldest :: 0 <= Available(l, a)
  }

  lemma OldestHolding(l: Ledger, payment: Id)
    requires AllocationsCovered(l)
    ensures Holding(l, OldestFirst(l, payment))
  {
    OldestMembers(l, payment);
  }

  /** The closed form of the waterfall: after k allocations it has taken the whole refund or
      everything they held, whichever is less. */
  lemma {:induction false} TakeSumIsLeast(l: Ledger, oldest: seq<Allocation>, amount: int, k: nat)
    requires k <= |oldest| && 0 <= amount && Holding(l, oldest)
    ensures TakeSum(l, oldest, amount, k) == if amount <= Sum(oldest[..k], AvailableTerm(l)) then amount
                                             else Sum(oldest[..k], AvailableTerm(l))
    ensures 0 <= TakeSum(l, oldest, amount, k) <= amount
  {
    if k != 0 {
      TakeSumIsLeast(l, oldest, amount, k - 1);
      assert oldest[..k][..k - 1] == oldest[..k - 1];
      assert oldest[k - 1] in oldest;
      forall a | a in oldest[..k - 1] ensures 0 <= AvailableTerm(l)(a) { assert a in oldest; }
      SumNonNegative(oldest[..k - 1], AvailableTerm(l));
    }
  }

  /** An allocation is touched only when every older one is left empty. */
  lemma OlderExhausted(l: Ledger, oldest: seq<Allocation>, amount: int, j: nat, k: nat)
    requires j < k < |oldest| && Holding(l, oldest)
    requires Take(l, oldest, amount, k) > 0
    ensures Take(l, oldest, amount, j) == Available(l, oldest[j])
  {
    assert oldest[j] in oldest;
    assert oldest[..k] == oldest[..j] + [oldest[j]] + oldest[j + 1..k];
    SumConcat(oldest[..j] + [oldest[j]], oldest[j + 1..k], AvailableTerm(l));
    SumSnoc(oldest[..j], oldest[j], AvailableTerm(l));
    forall a | a in oldest[j + 1..k] ensures 0 <= AvailableTerm(l)(a) { assert a in oldest; }
    SumNonNegative(oldest[j + 1..k], AvailableTerm(l));
  }

  /** Once a refund fits into what was not refunded yet, the check on the unallocated balance
      that follows the loop always passes. */
  lemma LastCheckNeverFails(l: Ledger, p: Payment, amount: int)
    requires Safe(l) && p in l.payments && 0 < amount
    requires Refunds(l.refunds, p.id) + amount <= p.amount
    ensures var oldest := OldestFirst(l, p.id);
            var remaining := amount - TakeSum(l, oldest, amount, |oldest|);
            remaining > 0 ==> remaining <= p.amount - Allocated(l.allocations, p.id) - UnallocatedRefunds(l, p.id)
  {
    var oldest := OldestFirst(l, p.id);
    OldestHolding(l, p.id);
    TakeSumIsLeast(l, oldest, amount, |oldest|);
    assert oldest[..|oldest|] == oldest;
    AvailableOfPayment(l, p.id);
    UnallocatedIsRest(l, p.id);
  }
}
