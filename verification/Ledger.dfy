/** The finance tables as the payment transactions update them in place, each against its specification in `Books`. */
module Ledger {
  import opened Wrappers
  import opened Calculations
  import B = Books
  import BooksProofs

  class Ledger {
    var bookings: seq<B.Booking>
    var plans: seq<B.Plan>
    var installments: seq<B.Installment>
    var payments: seq<B.Payment>
    var refunds: seq<B.Refund>
    var allocations: seq<B.Allocation>
    var statusKeys: map<B.Key, B.StatusChange>
    var refundKeys: map<B.Key, nat>
    var allocationKeys: map<B.Key, nat>
    var reversalKeys: map<B.Key, nat>

    function State(): B.Books
      reads this
    {
      B.Books(bookings, plans, installments, payments, refunds, allocations, statusKeys, refundKeys, allocationKeys, reversalKeys)
    }

    /** The consistency of the ledger: caps, plan rules, key records and refund statuses. */
    ghost predicate Valid()
      reads this
    {
      BooksProofs.Inv(State())
    }

    constructor ()
      ensures Valid()
      ensures State() == B.Books([], [], [], [], [], [], map[], map[], map[], map[])
    {
      bookings, plans, installments, payments, refunds, allocations := [], [], [], [], [], [];
      statusKeys, refundKeys, allocationKeys, reversalKeys := map[], map[], map[], map[];
    }

    method SetFinancials(b: nat, total: int, currency: string, hasReason: bool) returns (outcome: B.Outcome)
      requires Valid()
      modifies this`bookings
      ensures (State(), outcome) == B.SetFinancials(old(State()), b, total, currency, hasReason)
      ensures total > 0 ==> Valid()
    {
      hide BooksProofs.Inv;
      if total > 0 {
        BooksProofs.StepKeepsInv(State(), BooksProofs.SetFinancialsEvent(b, total, currency, hasReason));
      }
      if b >= |bookings| {
        return B.Refused(B.BookingForbidden);
      }
      var before := bookings[b];
      if before.cancelled {
        return B.Refused(B.BookingStatusNotPermitted);
      }
      if B.HasActivePlan(State(), b) || B.HasPayment(State(), b) {
        return B.Refused(B.BookingFinancialsLocked);
      }
      if before.currency == Some(currency) && before.total == Some(total) {
        return B.Unchanged;
      }
      if before.total.Some? && !hasReason {
        return B.Refused(B.PaymentConflict);
      }
      bookings := bookings[b := before.(total := Some(total), currency := Some(currency))];
      return B.Applied;
    }

    method Propose(b: nat, items: seq<B.Item>) returns (outcome: B.Outcome)
      requires Valid()
      modifies this`plans, this`installments
      ensures (State(), outcome) == B.Propose(old(State()), b, items)
      ensures items != [] && (forall i | 0 <= i < |items| :: items[i].amount > 0) ==> Valid()
    {
      hide BooksProofs.Inv;
      if items != [] && (forall i | 0 <= i < |items| :: items[i].amount > 0) {
        BooksProofs.StepKeepsInv(State(), BooksProofs.ProposeEvent(b, items));
      }
      if !B.StructureOk(items) {
        return B.Refused(B.PlanConflict);
      }
      if b >= |bookings| {
        return B.Refused(B.BookingForbidden);
      }
      if bookings[b].cancelled {
        return B.Refused(B.BookingStatusNotPermitted);
      }
      if bookings[b].total.None? || bookings[b].currency.None? || B.HasActivePlan(State(), b) {
        return B.Refused(B.PlanConflict);
      }
      installments := installments + B.InstallmentsOf(|plans|, items);
      plans := plans + [B.Plan(b, B.Proposed)];
      return B.Applied;
    }

    method Approve(plan: nat) returns (outcome: B.Outcome)
      requires Valid()
      modifies this`plans
      ensures (State(), outcome) == B.Approve(old(State()), plan)
      ensures Valid()
    {
      hide BooksProofs.Inv;
      BooksProofs.StepKeepsInv(State(), BooksProofs.ApproveEvent(plan));
      if plan >= |plans| || plans[plan].booking >= |bookings| {
        return B.Refused(B.PlanForbidden);
      }
      var booking := bookings[plans[plan].booking];
      if plans[plan].status.Approved? {
        return B.Unchanged;
      }
      if booking.cancelled {
        return B.Refused(B.BookingStatusNotPermitted);
      }
      if !plans[plan].status.Proposed? || booking.total != Some(B.PlanTotal(installments, plan)) {
        return B.Refused(B.PlanConflict);
      }
      plans := plans[plan := plans[plan].(status := B.Approved)];
      return B.Applied;
    }

    method Withdraw(plan: nat) returns (outcome: B.Outcome)
      requires Valid()
      modifies this`plans
      ensures (State(), outcome) == B.Withdraw(old(State()), plan)
      ensures Valid()
    {
      hide BooksProofs.Inv;
      BooksProofs.StepKeepsInv(State(), BooksProofs.WithdrawEvent(plan));
      if plan >= |plans| {
        return B.Refused(B.PlanForbidden);
      }
      if plans[plan].status.Withdrawn? {
        return B.Unchanged;
      }
      if !plans[plan].status.Proposed? || B.IsTargeted(State(), plan) {
        return B.Refused(B.PlanConflict);
      }
      plans := plans[plan := plans[plan].(status := B.Withdrawn)];
      return B.Applied;
    }

    method Record(b: nat, amount: int, key: B.Key) returns (outcome: B.Outcome)
      requires Valid()
      modifies this`payments, this`statusKeys
      ensures (State(), outcome) == B.Record(old(State()), b, amount, key)
      ensures amount > 0 ==> Valid()
    {
      hide BooksProofs.Inv;
      if amount > 0 {
        BooksProofs.StepKeepsInv(State(), BooksProofs.RecordEvent(b, amount, key));
      }
      if b >= |bookings| {
        return B.Refused(B.BookingForbidden);
      }
      if key in statusKeys {
        var change := statusKeys[key];
        if change.previous.Some? || !change.next.Pending? || change.payment >= |payments| {
          return B.Refused(B.KeyConflict);
        }
        var payment := payments[change.payment];
        return if payment.booking != b || payment.amount != amount then B.Refused(B.KeyConflict) else B.Unchanged;
      }
      if bookings[b].cancelled {
        return B.Refused(B.BookingStatusNotPermitted);
      }
      if bookings[b].currency.None? {
        return B.Refused(B.BookingCurrencyNotSet);
      }
      statusKeys := statusKeys[key := B.StatusChange(|payments|, None, Pending)];
      payments := payments + [B.Payment(b, amount, Pending)];
      return B.Applied;
    }

    method Transition(p: nat, next: PaymentStatus, key: B.Key)
      requires p < |payments|
      modifies this`payments, this`statusKeys
      ensures State() == B.Transition(old(State()), p, next, key)
    {
      statusKeys := statusKeys[key := B.StatusChange(p, Some(payments[p].status), next)];
      payments := payments[p := payments[p].(status := next)];
    }

    method Confirm(p: nat, key: B.Key) returns (outcome: B.Outcome)
      requires Valid()
      modifies this`payments, this`statusKeys
      ensures (State(), outcome) == B.ConfirmPayment(old(State()), p, key)
      ensures Valid()
    {
      hide BooksProofs.Inv;
      BooksProofs.StepKeepsInv(State(), BooksProofs.ConfirmEvent(p, key));
      if key in statusKeys {
        var change := statusKeys[key];
        return if change.payment != p || !change.next.Confirmed? then B.Refused(B.KeyConflict) else B.Unchanged;
      }
      if p >= |payments| {
        return B.Refused(B.PaymentForbidden);
      }
      if payments[p].booking < |bookings| && bookings[payments[p].booking].cancelled {
        return B.Refused(B.BookingStatusNotPermitted);
      }
      if !payments[p].status.Pending? {
        return B.Refused(B.InvalidTransition);
      }
      Transition(p, Confirmed, key);
      return B.Applied;
    }

    method Reverse(p: nat, key: B.Key) returns (outcome: B.Outcome)
      requires Valid()
      modifies this`payments, this`statusKeys
      ensures (State(), outcome) == B.ReversePayment(old(State()), p, key)
      ensures Valid()
    {
      hide BooksProofs.Inv;
      BooksProofs.StepKeepsInv(State(), BooksProofs.ReverseEvent(p, key));
      if key in statusKeys {
        var change := statusKeys[key];
        return if change.payment != p || !change.next.Reversed? then B.Refused(B.KeyConflict) else B.Unchanged;
      }
      if p >= |payments| {
        return B.Refused(B.PaymentForbidden);
      }
      if !payments[p].status.Confirmed? || B.RefundTotal(refunds, p) > 0 {
        return B.Refused(B.InvalidTransition);
      }
      Transition(p, Reversed, key);
      return B.Applied;
    }

    method Refund(p: nat, amount: int, allocation: Option<nat>, key: B.Key) returns (outcome: B.Outcome)
      requires Valid()
      modifies this`payments, this`statusKeys, this`refunds, this`refundKeys
      ensures (State(), outcome) == B.RefundPayment(old(State()), p, amount, allocation, key)
      ensures amount > 0 ==> Valid()
    {
      hide BooksProofs.Inv;
      if amount > 0 {
        BooksProofs.StepKeepsInv(State(), BooksProofs.RefundEvent(p, amount, allocation, key));
      }
      if key in refundKeys && refundKeys[key] < |refunds| {
        return if refunds[refundKeys[key]] == B.Refund(p, amount, allocation) then B.Unchanged else B.Refused(B.KeyConflict);
      }
      if key in statusKeys {
        return B.Refused(B.KeyConflict);
      }
      if p >= |payments| {
        return B.Refused(B.PaymentForbidden);
      }
      if !payments[p].status.Confirmed? {
        return B.Refused(B.InvalidTransition);
      }
      if payments[p].booking < |bookings| && bookings[payments[p].booking].currency.None? {
        return B.Refused(B.BookingCurrencyNotSet);
      }
      var newTotal := B.RefundTotal(refunds, p) + amount;
      if newTotal > payments[p].amount {
        return B.Refused(B.RefundExceedsRemaining);
      }
      var linked := 0;
      if allocation.Some? {
        if !B.RefundsAllocation(State(), p, allocation.value) {
          return B.Refused(B.AllocationNotPermitted);
        }
        if B.Through(refunds, allocation.value) + amount > allocations[allocation.value].amount {
          return B.Refused(B.RefundExceedsRemaining);
        }
        linked := amount;
      }
      if B.RawPaymentNet(State(), p) - linked > payments[p].amount - newTotal {
        return B.Refused(B.RefundExceedsRemaining);
      }
      refundKeys := refundKeys[key := |refunds|];
      refunds := refunds + [B.Refund(p, amount, allocation)];
      if newTotal == payments[p].amount {
        Transition(p, Refunded, key);
      }
      return B.Applied;
    }

    method Allocate(p: nat, i: nat, amount: int, key: B.Key) returns (outcome: B.Outcome)
      requires Valid()
      modifies this`allocations, this`allocationKeys
      ensures (State(), outcome) == B.Allocate(old(State()), p, i, amount, key)
      ensures amount > 0 ==> Valid()
    {
      hide BooksProofs.Inv;
      if amount > 0 {
        BooksProofs.StepKeepsInv(State(), BooksProofs.AllocateEvent(p, i, amount, key));
      }
      if key in allocationKeys && allocationKeys[key] < |allocations| {
        var existing := allocations[allocationKeys[key]];
        var same := existing.payment == p && existing.installment == i && existing.amount == amount;
        return if same then B.Unchanged else B.Refused(B.KeyConflict);
      }
      if p >= |payments| || payments[p].booking >= |bookings| {
        return B.Refused(B.PaymentForbidden);
      }
      var booking := bookings[payments[p].booking];
      if booking.cancelled {
        return B.Refused(B.BookingStatusNotPermitted);
      }
      if booking.currency.None? {
        return B.Refused(B.BookingCurrencyNotSet);
      }
      if i >= |installments| || installments[i].plan >= |plans|
         || plans[installments[i].plan].booking != payments[p].booking
         || !plans[installments[i].plan].status.Approved? {
        return B.Refused(B.AllocationNotPermitted);
      }
      if B.RefundTotal(refunds, p) > payments[p].amount {
        return B.Refused(B.IntegrityFailure);
      }
      if B.RawPaymentNet(State(), p) + amount > NetContribution(B.PaymentAt(State(), p))
         || B.InstallmentNet(State(), i) + amount > installments[i].item.amount {
        return B.Refused(B.AllocationNotPermitted);
      }
      allocationKeys := allocationKeys[key := |allocations|];
      allocations := allocations + [B.Allocation(p, i, amount, false)];
      return B.Applied;
    }

    method ReverseAllocation(a: nat, key: B.Key) returns (outcome: B.Outcome)
      requires Valid()
      modifies this`allocations, this`reversalKeys
      ensures (State(), outcome) == B.ReverseAllocation(old(State()), a, key)
      ensures Valid()
    {
      hide BooksProofs.Inv;
      BooksProofs.StepKeepsInv(State(), BooksProofs.ReverseAllocationEvent(a, key));
      if key in reversalKeys {
        return if reversalKeys[key] == a then B.Unchanged else B.Refused(B.KeyConflict);
      }
      if a >= |allocations| {
        return B.Refused(B.PaymentForbidden);
      }
      if allocations[a].reversed || B.HasRefund(State(), a) {
        return B.Refused(B.ReversalNotPermitted);
      }
      allocations := allocations[a := allocations[a].(reversed := true)];
      reversalKeys := reversalKeys[key := a];
      return B.Applied;
    }
  }
}
