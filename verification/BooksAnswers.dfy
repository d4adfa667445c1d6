/**
 * When each ledger operation succeeds, and exactly what it then writes, for every consistent ledger: stated on the rows
 * and on the sums of the tables afterwards, without the guards of the operations.
 */
module BooksAnswers {
  import opened Wrappers
  import opened Sequences
  import opened Calculations
  import opened Books
  import opened BooksProofs
  import opened BooksTheorems

  /** Applied exactly under the condition, with exactly these tables; otherwise nothing is written. */
  ghost predicate Answers(bk: Books, answer: (Books, Outcome), condition: bool, written: Books) {
    && (answer.1 == Applied <==> condition)
    && answer.0 == if condition then written else bk
  }

  /** An existing, open booking whose total is agreed. */
  predicate IsOpen(bk: Books, b: nat) {
    b < |bk.bookings| && !bk.bookings[b].cancelled && bk.bookings[b].total.Some?
  }

  predicate OnlyWithdrawnPlans(bk: Books, b: nat) {
    forall i | 0 <= i < |bk.plans| && bk.plans[i].booking == b :: bk.plans[i].status == Withdrawn
  }

  // ---------------------------------------------------------------- bookings and plans

  lemma SetFinancialsAnswers(bk: Books, b: nat, total: int, currency: string, hasReason: bool)
    ensures var condition :=
              && b < |bk.bookings| && !bk.bookings[b].cancelled && OnlyWithdrawnPlans(bk, b)
              && (forall p | 0 <= p < |bk.payments| :: bk.payments[p].booking != b)
              && !(bk.bookings[b].total == Some(total) && bk.bookings[b].currency == Some(currency))
              && (bk.bookings[b].total.None? || hasReason);
            Answers(bk, SetFinancials(bk, b, total, currency, hasReason), condition,
                    if condition then bk.(bookings := bk.bookings[b := Booking(false, Some(total), Some(currency))]) else bk)
  {
    PlansAndPayments(bk, b);
    hide HasActivePlan, HasPayment, OnlyWithdrawnPlans;
  }

  lemma PlansAndPayments(bk: Books, b: nat)
    ensures HasActivePlan(bk, b) <==> !OnlyWithdrawnPlans(bk, b)
    ensures HasPayment(bk, b) <==> !(forall p | 0 <= p < |bk.payments| :: bk.payments[p].booking != b)
  {
  }

  /** Distinct numbers, and at most one deposit, which is numbered 1. */
  predicate WellNumbered(items: seq<Item>) {
    && (forall i, j | 0 <= i < j < |items| :: items[i].sequenceNumber != items[j].sequenceNumber)
    && (forall i | 0 <= i < |items| && items[i].isDeposit :: items[i].sequenceNumber == 1)
  }

  lemma ProposeAnswers(bk: Books, b: nat, items: seq<Item>)
    requires Inv(bk)
    ensures var (now, outcome) := Propose(bk, b, items);
            && (outcome == Applied <==> WellNumbered(items) && IsOpen(bk, b) && OnlyWithdrawnPlans(bk, b))
            && (outcome != Applied ==> now == bk)
            && (outcome == Applied ==>
                  && now == bk.(plans := bk.plans + [Plan(b, Proposed)], installments := now.installments)
                  && |now.installments| == |bk.installments| + |items| && bk.installments <= now.installments
                  && forall i | 0 <= i < |items| :: now.installments[|bk.installments| + i] == Installment(|bk.plans|, items[i]))
  {
    hide RefsOk, RowsOk, CapsOk, HasActivePlan, OnlyWithdrawnPlans;
    PlansAndPayments(bk, b);
    StructureIsNumbering(items);
    hide StructureOk, WellNumbered;
  }

  lemma StructureIsNumbering(items: seq<Item>)
    ensures StructureOk(items) <==> WellNumbered(items)
  {
    if WellNumbered(items) {
      forall i, j | 0 <= i < |items| && 0 <= j < |items| && items[i].isDeposit && items[j].isDeposit ensures i == j {
        assert items[i].sequenceNumber == items[j].sequenceNumber;
      }
    }
  }

  lemma ApproveAnswers(bk: Books, plan: nat)
    requires Inv(bk)
    ensures var condition :=
              && plan < |bk.plans| && bk.plans[plan].status == Proposed && IsOpen(bk, bk.plans[plan].booking)
              && bk.bookings[bk.plans[plan].booking].total == Some(PlanTotal(bk.installments, plan));
            Answers(bk, Approve(bk, plan), condition,
                    if condition then bk.(plans := bk.plans[plan := Plan(bk.plans[plan].booking, Approved)]) else bk)
  {
    hide PlansOk, RowsOk, CapsOk, PlanTotal;
  }

  /** No proposed plan has an allocation, so every proposed plan can be withdrawn. */
  lemma WithdrawAnswers(bk: Books, plan: nat)
    requires Inv(bk)
    ensures var condition := plan < |bk.plans| && bk.plans[plan].status == Proposed;
            Answers(bk, Withdraw(bk, plan), condition,
                    if condition then bk.(plans := bk.plans[plan := Plan(bk.plans[plan].booking, Withdrawn)]) else bk)
  {
    hide Inv, IsTargeted;
    PlanLaws(bk);
  }

  // ---------------------------------------------------------------- payments

  lemma RecordAnswers(bk: Books, b: nat, amount: int, key: Key)
    requires Inv(bk)
    ensures var condition := key !in bk.statusKeys && IsOpen(bk, b);
            Answers(bk, Record(bk, b, amount, key), condition,
                    bk.(payments := bk.payments + [Payment(b, amount, Pending)],
                        statusKeys := bk.statusKeys[key := StatusChange(|bk.payments|, None, Pending)]))
  {
    hide RefsOk, RowsOk, CapsOk;
    if b < |bk.bookings| {
      PairedFinancials(bk, b);
    }
  }

  /** The tables after payment p moved to a status under a key. */
  function WithStatusOf(bk: Books, p: nat, next: PaymentStatus, key: Key): Books
    requires p < |bk.payments|
  {
    bk.(payments := bk.payments[p := Payment(bk.payments[p].booking, bk.payments[p].amount, next)],
        statusKeys := bk.statusKeys[key := StatusChange(p, Some(bk.payments[p].status), next)])
  }

  lemma ConfirmAnswers(bk: Books, p: nat, key: Key)
    requires Inv(bk)
    ensures var condition :=
              && key !in bk.statusKeys && p < |bk.payments| && bk.payments[p].status == Pending
              && IsOpen(bk, bk.payments[p].booking);
            Answers(bk, ConfirmPayment(bk, p, key), condition, if condition then WithStatusOf(bk, p, Confirmed, key) else bk)
  {
    hide RowsOk, CapsOk;
  }

  /** A payment can be reversed exactly while it is confirmed and no refund row names it. */
  lemma ReverseAnswers(bk: Books, p: nat, key: Key)
    requires Inv(bk)
    ensures var condition :=
              && key !in bk.statusKeys && p < |bk.payments| && bk.payments[p].status == Confirmed
              && forall r | 0 <= r < |bk.refunds| :: bk.refunds[r].payment != p;
            Answers(bk, ReversePayment(bk, p, key), condition, if condition then WithStatusOf(bk, p, Reversed, key) else bk)
  {
    hide PlansOk, RowsOk, CapsOk, RefundTotal;
    forall r | 0 <= r < |bk.refunds| ensures bk.refunds[r].amount > 0 {
      assert RefundRefOk(bk, bk.refunds[r]);
    }
    RefundedIff(bk.refunds, p);
  }

  /** Positive refunds of a payment add up to something exactly when there is one. */
  lemma {:induction false} RefundedIff(refunds: seq<Refund>, p: nat)
    requires forall r | 0 <= r < |refunds| :: refunds[r].amount > 0
    ensures RefundTotal(refunds, p) >= 0
    ensures RefundTotal(refunds, p) > 0 <==> !(forall r | 0 <= r < |refunds| :: refunds[r].payment != p)
  {
    if refunds != [] {
      var n := |refunds| - 1;
      RefundedIff(refunds[..n], p);
      assert forall r | 0 <= r < n :: refunds[..n][r] == refunds[r];
    }
  }

  /** The tables with one more refund row. */
  function WithRefund(bk: Books, r: Refund, key: Key): Books {
    bk.(refunds := bk.refunds + [r], refundKeys := bk.refundKeys[key := |bk.refunds|])
  }

  /** The key has made no refund and no status change yet. */
  predicate NewRefundKey(bk: Books, key: Key) {
    key !in bk.statusKeys && (key in bk.refundKeys ==> bk.refundKeys[key] >= |bk.refunds|)
  }

  /**
   * A confirmed payment may be refunded, through one of its own live allocations if one is named. With the refund row
   * added, the payment's refunds fit its amount, the allocation's fit the allocation, and what the payment still
   * allocates fits what is left of it.
   */
  ghost predicate MayRefund(bk: Books, r: Refund, key: Key) {
    var after := WithRefund(bk, r, key);
    && r.payment < |bk.payments| && bk.payments[r.payment].status == Confirmed
    && bk.payments[r.payment].booking < |bk.bookings| && bk.bookings[bk.payments[r.payment].booking].currency.Some?
    && RefundTotal(after.refunds, r.payment) <= bk.payments[r.payment].amount
    && (r.allocation.Some? ==>
          && r.allocation.value < |bk.allocations|
          && bk.allocations[r.allocation.value].payment == r.payment && !bk.allocations[r.allocation.value].reversed
          && Through(after.refunds, r.allocation.value) <= bk.allocations[r.allocation.value].amount)
    && PaymentNet(after, r.payment) <= bk.payments[r.payment].amount - RefundTotal(after.refunds, r.payment)
  }

  /** A refund succeeds exactly when it may, adds exactly its row, and completes the payment exactly when nothing is left. */
  lemma RefundAnswers(bk: Books, p: nat, amount: int, allocation: Option<nat>, key: Key)
    requires Inv(bk) && amount > 0
    ensures var r := Refund(p, amount, allocation);
            var after := WithRefund(bk, r, key);
            var condition := NewRefundKey(bk, key) && MayRefund(bk, r, key);
            Answers(bk, RefundPayment(bk, p, amount, allocation, key), condition,
                    if !condition then bk
                    else if RefundTotal(after.refunds, p) == bk.payments[p].amount then WithStatusOf(after, p, Refunded, key)
                    else after)
  {
    var r := Refund(p, amount, allocation);
    if NewRefundKey(bk, key) && p < |bk.payments| && bk.payments[p].status == Confirmed
       && (allocation.Some? ==> RefundsAllocation(bk, p, allocation.value))
    {
      RefundSums(bk, r, key);
    }
    PaymentBooking(bk, p);
    hide Inv, RefundTotal, Through, PaymentNet, RawPaymentNet;
  }

  lemma PaymentBooking(bk: Books, p: nat)
    requires Inv(bk)
    ensures p < |bk.payments| ==> bk.payments[p].booking < |bk.bookings|
  {
    hide PlansOk, RowsOk, CapsOk;
  }

  /** What the sums become with the refund row, in terms of what the guards read. */
  lemma RefundSums(bk: Books, r: Refund, key: Key)
    requires Inv(bk) && r.amount > 0 && r.payment < |bk.payments| && bk.payments[r.payment].status == Confirmed
    requires r.allocation.Some? ==> RefundsAllocation(bk, r.payment, r.allocation.value)
    ensures var after := WithRefund(bk, r, key);
            && RefundTotal(after.refunds, r.payment) == RefundTotal(bk.refunds, r.payment) + r.amount
            && (r.allocation.Some? ==>
                  Through(after.refunds, r.allocation.value) == Through(bk.refunds, r.allocation.value) + r.amount)
            && PaymentNet(after, r.payment) == RawPaymentNet(bk, r.payment) - if r.allocation.Some? then r.amount else 0
  {
    hide PlansOk, RowsOk, CapsOk, PaymentNet, RawPaymentNet, Through, RefundTotal;
    RefundTotalOne(bk.refunds, r, r.payment);
    if r.allocation.Some? {
      ThroughOne(bk.refunds, r, r.allocation.value);
    }
    RefundMovesNets(bk, WithRefund(bk, r, key), r, Confirmed);
    RawIsNet(bk, r.payment);
  }

  /** A confirmed payment without refunds or live allocations can be refunded whole, and is then refunded. */
  lemma UntouchedPaymentRefundsWhole(bk: Books, p: nat, key: Key)
    requires Inv(bk) && NewRefundKey(bk, key) && p < |bk.payments| && bk.payments[p].status == Confirmed
    requires forall r | 0 <= r < |bk.refunds| :: bk.refunds[r].payment != p
    requires forall a | 0 <= a < |bk.allocations| && bk.allocations[a].payment == p :: bk.allocations[a].reversed
    ensures var (now, outcome) := RefundPayment(bk, p, bk.payments[p].amount, None, key);
            && outcome == Applied && p < |now.payments| && now.payments[p].status == Refunded
            && now.refunds == bk.refunds + [Refund(p, bk.payments[p].amount, None)]
  {
    var r := Refund(p, bk.payments[p].amount, None);
    UntouchedSums(bk, p);
    RefundSums(bk, r, key);
    RefundAnswers(bk, p, r.amount, None, key);
    hide RefundPayment, RefundTotal, PaymentNet, RawPaymentNet, Through, RowsOk, CapsOk;
  }

  lemma UntouchedSums(bk: Books, p: nat)
    requires Inv(bk) && p < |bk.payments|
    requires forall r | 0 <= r < |bk.refunds| :: bk.refunds[r].payment != p
    requires forall a | 0 <= a < |bk.allocations| && bk.allocations[a].payment == p :: bk.allocations[a].reversed
    ensures RefundTotal(bk.refunds, p) == 0 && RawPaymentNet(bk, p) == 0 && bk.payments[p].amount > 0
  {
    hide PlansOk, CapsOk;
    NoRefundsYet(bk.refunds, p);
    BucketOfZeros(PaymentKeys(bk.allocations), RawNets(bk), p);
  }

  // ---------------------------------------------------------------- allocations

  function WithAllocation(bk: Books, al: Allocation, key: Key): Books {
    bk.(allocations := bk.allocations + [al], allocationKeys := bk.allocationKeys[key := |bk.allocations|])
  }

  predicate NewAllocationKey(bk: Books, key: Key) {
    key in bk.allocationKeys ==> bk.allocationKeys[key] >= |bk.allocations|
  }

  /**
   * A confirmed payment of an open booking may be allocated to an installment of that booking's approved plan. With the
   * allocation added, the payment's net allocation fits what it contributes and the installment's fits its amount.
   */
  ghost predicate MayAllocate(bk: Books, al: Allocation, key: Key) {
    var after := WithAllocation(bk, al, key);
    && al.payment < |bk.payments| && bk.payments[al.payment].status == Confirmed && IsOpen(bk, bk.payments[al.payment].booking)
    && al.installment < |bk.installments| && bk.installments[al.installment].plan < |bk.plans|
    && bk.plans[bk.installments[al.installment].plan] == Plan(bk.payments[al.payment].booking, Approved)
    && PaymentNet(after, al.payment) <= bk.payments[al.payment].amount - RefundTotal(bk.refunds, al.payment)
    && InstallmentNet(after, al.installment) <= bk.installments[al.installment].item.amount
  }

  /** An allocation succeeds exactly when it may, and adds exactly its row. */
  lemma AllocateAnswers(bk: Books, p: nat, i: nat, amount: int, key: Key)
    requires Inv(bk) && amount > 0
    ensures var al := Allocation(p, i, amount, false);
            Answers(bk, Allocate(bk, p, i, amount, key), NewAllocationKey(bk, key) && MayAllocate(bk, al, key),
                    WithAllocation(bk, al, key))
  {
    var al := Allocation(p, i, amount, false);
    if p < |bk.payments| {
      AllocatedPayment(bk, p);
      if bk.payments[p].status == Confirmed {
        AllocationSums(bk, al, key);
      }
    }
    hide Inv, RefundTotal, PaymentNet, RawPaymentNet, InstallmentNet;
  }

  /** Only a confirmed payment has anything left to allocate. */
  lemma AllocatedPayment(bk: Books, p: nat)
    requires Inv(bk) && p < |bk.payments|
    ensures bk.payments[p].booking < |bk.bookings|
    ensures bk.bookings[bk.payments[p].booking].total.Some? && bk.bookings[bk.payments[p].booking].currency.Some?
    ensures RefundTotal(bk.refunds, p) <= bk.payments[p].amount && RawPaymentNet(bk, p) >= 0
    ensures NetContribution(PaymentAt(bk, p)) ==
            if bk.payments[p].status == Confirmed then bk.payments[p].amount - RefundTotal(bk.refunds, p) else 0
  {
    hide CapsOk, RawPaymentNet, RefundTotal;
    assert PaymentOk(bk, p);
    RawNonNegative(bk, p);
    PairedFinancials(bk, bk.payments[p].booking);
  }

  lemma AllocationSums(bk: Books, al: Allocation, key: Key)
    requires Inv(bk) && al.payment < |bk.payments| && bk.payments[al.payment].status == Confirmed && !al.reversed
    ensures var after := WithAllocation(bk, al, key);
            && PaymentNet(after, al.payment) == RawPaymentNet(bk, al.payment) + al.amount
            && InstallmentNet(after, al.installment) == InstallmentNet(bk, al.installment) + al.amount
  {
    hide PlansOk, RowsOk, CapsOk;
    var after := WithAllocation(bk, al, key);
    forall r | 0 <= r < |bk.refunds| ensures bk.refunds[r].allocation != Some(|bk.allocations|) {
      assert RefundRefOk(bk, bk.refunds[r]);
    }
    NothingThroughYet(bk.refunds, |bk.allocations|);
    RawIsNet(bk, al.payment);
    assert Nets(after) == Nets(bk) + [al.amount];
    assert PaymentKeys(after.allocations) == PaymentKeys(bk.allocations) + [al.payment];
    assert InstallmentKeys(after.allocations) == InstallmentKeys(bk.allocations) + [al.installment];
    BucketAppend(PaymentKeys(bk.allocations), Nets(bk), al.payment, al.amount, al.payment);
    BucketAppend(InstallmentKeys(bk.allocations), Nets(bk), al.installment, al.amount, al.installment);
  }

  /** An allocation can be reversed exactly once, while no refund row names it. */
  lemma ReverseAllocationAnswers(bk: Books, a: nat, key: Key)
    ensures var condition :=
              && key !in bk.reversalKeys && a < |bk.allocations| && !bk.allocations[a].reversed
              && forall r | 0 <= r < |bk.refunds| :: bk.refunds[r].allocation != Some(a);
            Answers(bk, ReverseAllocation(bk, a, key), condition,
                    if !condition then bk
                    else bk.(allocations := bk.allocations[
                               a := Allocation(bk.allocations[a].payment, bk.allocations[a].installment, bk.allocations[a].amount, true)],
                             reversalKeys := bk.reversalKeys[key := a]))
  {
  }

  // ---------------------------------------------------------------- refusals: each for a reason that holds

  lemma SetFinancialsRefusals(bk: Books, b: nat, total: int, currency: string, hasReason: bool)
    ensures match SetFinancials(bk, b, total, currency, hasReason).1
            case Applied => true
            case Unchanged => b < |bk.bookings| && bk.bookings[b].total == Some(total) && bk.bookings[b].currency == Some(currency)
            case Refused(BookingForbidden) => b >= |bk.bookings|
            case Refused(BookingStatusNotPermitted) => b < |bk.bookings| && bk.bookings[b].cancelled
            case Refused(BookingFinancialsLocked) =>
              !OnlyWithdrawnPlans(bk, b) || exists p :: 0 <= p < |bk.payments| && bk.payments[p].booking == b
            case Refused(PaymentConflict) => b < |bk.bookings| && bk.bookings[b].total.Some? && !hasReason
            case _ => false
  {
    hide HasActivePlan, OnlyWithdrawnPlans;
    PlansAndPayments(bk, b);
  }

  lemma ProposeRefusals(bk: Books, b: nat, items: seq<Item>)
    requires Inv(bk)
    ensures match Propose(bk, b, items).1
            case Applied => true
            case Refused(BookingForbidden) => b >= |bk.bookings|
            case Refused(BookingStatusNotPermitted) => b < |bk.bookings| && bk.bookings[b].cancelled
            case Refused(PlanConflict) =>
              !WellNumbered(items) || (b < |bk.bookings| && (bk.bookings[b].total.None? || !OnlyWithdrawnPlans(bk, b)))
            case _ => false
  {
    hide RefsOk, RowsOk, CapsOk, HasActivePlan, OnlyWithdrawnPlans;
    PlansAndPayments(bk, b);
    StructureIsNumbering(items);
    hide StructureOk, WellNumbered;
  }

  lemma ApproveRefusals(bk: Books, plan: nat)
    requires Inv(bk)
    ensures match Approve(bk, plan).1
            case Applied => true
            case Unchanged => plan < |bk.plans| && bk.plans[plan].status == Approved
            case Refused(PlanForbidden) => plan >= |bk.plans|
            case Refused(BookingStatusNotPermitted) =>
              plan < |bk.plans| && bk.plans[plan].booking < |bk.bookings| && bk.bookings[bk.plans[plan].booking].cancelled
            case Refused(PlanConflict) =>
              && plan < |bk.plans| && bk.plans[plan].booking < |bk.bookings|
              && (bk.plans[plan].status == Withdrawn
                  || bk.bookings[bk.plans[plan].booking].total != Some(PlanTotal(bk.installments, plan)))
            case _ => false
  {
    hide PlansOk, RowsOk, CapsOk, PlanTotal;
  }

  lemma WithdrawRefusals(bk: Books, plan: nat)
    requires Inv(bk)
    ensures match Withdraw(bk, plan).1
            case Applied => true
            case Unchanged => plan < |bk.plans| && bk.plans[plan].status == Withdrawn
            case Refused(PlanForbidden) => plan >= |bk.plans|
            case Refused(PlanConflict) => plan < |bk.plans| && bk.plans[plan].status == Approved
            case _ => false
  {
    hide Inv, IsTargeted;
    PlanLaws(bk);
  }

  /** The key's status change is this one. */
  predicate SameChange(bk: Books, key: Key, change: StatusChange) {
    key in bk.statusKeys && bk.statusKeys[key] == change
  }

  lemma RecordRefusals(bk: Books, b: nat, amount: int, key: Key)
    requires Inv(bk)
    ensures match Record(bk, b, amount, key).1
            case Applied => true
            case Unchanged =>
              exists p :: 0 <= p < |bk.payments| && bk.payments[p].booking == b && bk.payments[p].amount == amount
                          && SameChange(bk, key, StatusChange(p, None, Pending))
            case Refused(BookingForbidden) => b >= |bk.bookings|
            case Refused(KeyConflict) =>
              && key in bk.statusKeys
              && !exists p :: 0 <= p < |bk.payments| && bk.payments[p].booking == b && bk.payments[p].amount == amount
                              && SameChange(bk, key, StatusChange(p, None, Pending))
            case Refused(BookingStatusNotPermitted) => b < |bk.bookings| && bk.bookings[b].cancelled
            case Refused(BookingCurrencyNotSet) => b < |bk.bookings| && bk.bookings[b].currency.None?
            case _ => false
  {
    hide PlansOk, RowsOk, CapsOk, RefsOk;
    if key in bk.statusKeys && Record(bk, b, amount, key).1.Unchanged? {
      assert SameChange(bk, key, StatusChange(bk.statusKeys[key].payment, None, Pending));
    }
  }

  /** A repeated status change of the payment is a no-op, any other use of its key a conflict. */
  predicate ChangedBy(bk: Books, key: Key, p: nat, next: PaymentStatus) {
    key in bk.statusKeys && bk.statusKeys[key].payment == p && bk.statusKeys[key].next == next
  }

  lemma ConfirmRefusals(bk: Books, p: nat, key: Key)
    requires Inv(bk)
    ensures match ConfirmPayment(bk, p, key).1
            case Applied => true
            case Unchanged => ChangedBy(bk, key, p, Confirmed)
            case Refused(KeyConflict) => key in bk.statusKeys && !ChangedBy(bk, key, p, Confirmed)
            case Refused(PaymentForbidden) => p >= |bk.payments|
            case Refused(BookingStatusNotPermitted) =>
              p < |bk.payments| && bk.payments[p].booking < |bk.bookings| && bk.bookings[bk.payments[p].booking].cancelled
            case Refused(InvalidTransition) => p < |bk.payments| && bk.payments[p].status != Pending
            case _ => false
  {
    hide Inv;
  }

  lemma ReverseRefusals(bk: Books, p: nat, key: Key)
    requires Inv(bk)
    ensures match ReversePayment(bk, p, key).1
            case Applied => true
            case Unchanged => ChangedBy(bk, key, p, Reversed)
            case Refused(KeyConflict) => key in bk.statusKeys && !ChangedBy(bk, key, p, Reversed)
            case Refused(PaymentForbidden) => p >= |bk.payments|
            case Refused(InvalidTransition) =>
              p < |bk.payments| && (bk.payments[p].status != Confirmed || exists r :: 0 <= r < |bk.refunds| && bk.refunds[r].payment == p)
            case _ => false
  {
    ReverseAnswers(bk, p, key);
    hide Inv, RefundTotal;
  }

  /** With the refund row added the payment's refunds, the allocation's, or what the payment still allocates go too far. */
  ghost predicate Exceeds(bk: Books, r: Refund, key: Key) {
    var after := WithRefund(bk, r, key);
    && r.payment < |bk.payments|
    && (|| RefundTotal(after.refunds, r.payment) > bk.payments[r.payment].amount
        || (r.allocation.Some? && r.allocation.value < |bk.allocations|
            && Through(after.refunds, r.allocation.value) > bk.allocations[r.allocation.value].amount)
        || PaymentNet(after, r.payment) > bk.payments[r.payment].amount - RefundTotal(after.refunds, r.payment))
  }

  lemma ExceedsByTotal(bk: Books, r: Refund, key: Key)
    requires r.payment < |bk.payments| && RefundTotal(bk.refunds, r.payment) + r.amount > bk.payments[r.payment].amount
    ensures Exceeds(bk, r, key)
  {
    hide RefundTotal, Through, PaymentNet;
    RefundTotalOne(bk.refunds, r, r.payment);
  }

  lemma ExceedsByNets(bk: Books, r: Refund, key: Key)
    requires Inv(bk) && r.amount > 0 && r.payment < |bk.payments| && bk.payments[r.payment].status == Confirmed
    requires r.allocation.Some? ==> RefundsAllocation(bk, r.payment, r.allocation.value)
    requires || (r.allocation.Some? && Through(bk.refunds, r.allocation.value) + r.amount > bk.allocations[r.allocation.value].amount)
             || RawPaymentNet(bk, r.payment) - (if r.allocation.Some? then r.amount else 0)
                > bk.payments[r.payment].amount - (RefundTotal(bk.refunds, r.payment) + r.amount)
    ensures Exceeds(bk, r, key)
  {
    RefundSums(bk, r, key);
    hide Inv, RefundTotal, Through, PaymentNet, RawPaymentNet;
  }

  lemma RefundRefusals(bk: Books, p: nat, amount: int, allocation: Option<nat>, key: Key)
    requires Inv(bk) && amount > 0
    ensures var r := Refund(p, amount, allocation);
            match RefundPayment(bk, p, amount, allocation, key).1
            case Applied => true
            case Unchanged => key in bk.refundKeys && bk.refundKeys[key] < |bk.refunds| && bk.refunds[bk.refundKeys[key]] == r
            case Refused(KeyConflict) =>
              !NewRefundKey(bk, key)
              && (key in bk.refundKeys && bk.refundKeys[key] < |bk.refunds| ==> bk.refunds[bk.refundKeys[key]] != r)
            case Refused(PaymentForbidden) => p >= |bk.payments|
            case Refused(InvalidTransition) => p < |bk.payments| && bk.payments[p].status != Confirmed
            case Refused(BookingCurrencyNotSet) =>
              p < |bk.payments| && bk.payments[p].booking < |bk.bookings| && bk.bookings[bk.payments[p].booking].currency.None?
            case Refused(AllocationNotPermitted) =>
              && allocation.Some?
              && !(allocation.value < |bk.allocations| && bk.allocations[allocation.value].payment == p
                   && !bk.allocations[allocation.value].reversed)
            case Refused(RefundExceedsRemaining) => Exceeds(bk, r, key)
            case _ => false
  {
    hide Inv, RefundTotal, Through, PaymentNet, RawPaymentNet, Exceeds;
    if RefundPayment(bk, p, amount, allocation, key).1 == Refused(RefundExceedsRemaining) {
      var r := Refund(p, amount, allocation);
      if RefundTotal(bk.refunds, p) + amount > bk.payments[p].amount {
        ExceedsByTotal(bk, r, key);
      } else {
        ExceedsByNets(bk, r, key);
      }
    }
  }

  lemma AllocateRefusals(bk: Books, p: nat, i: nat, amount: int, key: Key)
    requires Inv(bk) && amount > 0
    ensures var al := Allocation(p, i, amount, false);
            var known := key in bk.allocationKeys && bk.allocationKeys[key] < |bk.allocations|;
            match Allocate(bk, p, i, amount, key).1
            case Applied => true
            case Unchanged => known && bk.allocations[bk.allocationKeys[key]].(reversed := false) == al
            case Refused(KeyConflict) => known && bk.allocations[bk.allocationKeys[key]].(reversed := false) != al
            case Refused(PaymentForbidden) => p >= |bk.payments|
            case Refused(BookingStatusNotPermitted) =>
              p < |bk.payments| && bk.payments[p].booking < |bk.bookings| && bk.bookings[bk.payments[p].booking].cancelled
            case Refused(AllocationNotPermitted) => !MayAllocate(bk, al, key)
            case _ => false
  {
    hide MayAllocate;
    AllocateAnswers(bk, p, i, amount, key);
    if p < |bk.payments| {
      AllocatedPayment(bk, p);
    }
    hide Inv, RefundTotal, PaymentNet, RawPaymentNet, InstallmentNet, PaymentAt;
  }

  lemma ReverseAllocationRefusals(bk: Books, a: nat, key: Key)
    ensures match ReverseAllocation(bk, a, key).1
            case Applied => true
            case Unchanged => key in bk.reversalKeys && bk.reversalKeys[key] == a
            case Refused(KeyConflict) => key in bk.reversalKeys && bk.reversalKeys[key] != a
            case Refused(PaymentForbidden) => a >= |bk.allocations|
            case Refused(ReversalNotPermitted) =>
              && a < |bk.allocations|
              && (bk.allocations[a].reversed || exists r :: 0 <= r < |bk.refunds| && bk.refunds[r].allocation == Some(a))
            case _ => false
  {
  }
}
