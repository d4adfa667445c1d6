/**
 * The finance tables and the eleven operations on them. Ids are positions; amounts are centavos; the
 * unique idempotency-key columns are index maps. Each operation is one serializable transaction.
 */
module Books {
  import opened Wrappers
  import opened Sequences
  import opened Calculations
  import opened ExportDates

  type Key = nat

  datatype Booking = Booking(cancelled: bool, total: Option<int>, currency: Option<string>)

  datatype PlanStatus = Proposed | Approved | Withdrawn

  datatype Plan = Plan(booking: nat, status: PlanStatus)

  datatype Item = Item(sequenceNumber: int, isDeposit: bool, amount: int, dueDate: Day)

  datatype Installment = Installment(plan: nat, item: Item)

  datatype Payment = Payment(booking: nat, amount: int, status: PaymentStatus)

  datatype StatusChange = StatusChange(payment: nat, previous: Option<PaymentStatus>, next: PaymentStatus)

  /** A refund, with the allocation its one refund allocation names, if any. */
  datatype Refund = Refund(payment: nat, amount: int, allocation: Option<nat>)

  datatype Allocation = Allocation(payment: nat, installment: nat, amount: int, reversed: bool)

  datatype Books = Books(
    bookings: seq<Booking>,
    plans: seq<Plan>,
    installments: seq<Installment>,
    payments: seq<Payment>,
    refunds: seq<Refund>,
    allocations: seq<Allocation>,
    statusKeys: map<Key, StatusChange>,
    refundKeys: map<Key, nat>,
    allocationKeys: map<Key, nat>,
    reversalKeys: map<Key, nat>
  )

  datatype Error =
    | BookingForbidden
    | BookingStatusNotPermitted
    | BookingFinancialsLocked
    | BookingCurrencyNotSet
    | PaymentConflict
    | PaymentForbidden
    | PlanForbidden
    | PlanConflict
    | InvalidTransition
    | KeyConflict
    | RefundExceedsRemaining
    | AllocationNotPermitted
    | ReversalNotPermitted
    | IntegrityFailure

  datatype Outcome = Applied | Unchanged | Refused(error: Error)

  // ---------------------------------------------------------------- sums the guards read

  function RefundTotal(refunds: seq<Refund>, p: nat): int {
    if refunds == [] then 0
    else
      var r := refunds[|refunds| - 1];
      RefundTotal(refunds[..|refunds| - 1], p) + if r.payment == p then r.amount else 0
  }

  /** What has been refunded through one allocation. */
  function Through(refunds: seq<Refund>, a: nat): int {
    if refunds == [] then 0
    else
      var r := refunds[|refunds| - 1];
      Through(refunds[..|refunds| - 1], a) + if r.allocation == Some(a) then r.amount else 0
  }

  function PlanTotal(installments: seq<Installment>, plan: nat): int {
    if installments == [] then 0
    else
      var last := installments[|installments| - 1];
      PlanTotal(installments[..|installments| - 1], plan) + if last.plan == plan then last.item.amount else 0
  }

  function StatusOf(payments: seq<Payment>, p: nat): PaymentStatus {
    if p < |payments| then payments[p].status else Pending
  }

  function ViewAt(bk: Books, a: nat): AllocationView
    requires a < |bk.allocations|
  {
    var al := bk.allocations[a];
    AllocationView(al.amount, StatusOf(bk.payments, al.payment), al.reversed, Through(bk.refunds, a))
  }

  function PaymentAt(bk: Books, p: nat): PaymentView
    requires p < |bk.payments|
  {
    PaymentView(bk.payments[p].status, bk.payments[p].amount, RefundTotal(bk.refunds, p))
  }

  function PaymentKeys(allocations: seq<Allocation>): (keys: seq<nat>) {
    seq(|allocations|, a requires 0 <= a < |allocations| => allocations[a].payment)
  }

  function InstallmentKeys(allocations: seq<Allocation>): (keys: seq<nat>) {
    seq(|allocations|, a requires 0 <= a < |allocations| => allocations[a].installment)
  }

  /** Each allocation's net active amount. */
  function Nets(bk: Books): (nets: seq<int>) {
    seq(|bk.allocations|, a requires 0 <= a < |bk.allocations| => NetOf(ViewAt(bk, a)))
  }

  /** The same without looking at the payment's status, as the payment-side sum reads it. */
  function RawNets(bk: Books): (nets: seq<int>) {
    seq(|bk.allocations|, a requires 0 <= a < |bk.allocations| =>
      if bk.allocations[a].reversed then 0 else bk.allocations[a].amount - Through(bk.refunds, a))
  }

  function PaymentNet(bk: Books, p: nat): int {
    Bucket(PaymentKeys(bk.allocations), Nets(bk), p)
  }

  function RawPaymentNet(bk: Books, p: nat): int {
    Bucket(PaymentKeys(bk.allocations), RawNets(bk), p)
  }

  function InstallmentNet(bk: Books, i: nat): int {
    Bucket(InstallmentKeys(bk.allocations), Nets(bk), i)
  }

  // ---------------------------------------------------------------- bookings and plans

  predicate IsActive(plan: Plan) {
    !plan.status.Withdrawn?
  }

  predicate HasActivePlan(bk: Books, b: nat) {
    exists i :: 0 <= i < |bk.plans| && bk.plans[i].booking == b && IsActive(bk.plans[i])
  }

  predicate HasPayment(bk: Books, b: nat) {
    exists p :: 0 <= p < |bk.payments| && bk.payments[p].booking == b
  }

  function AddBooking(bk: Books): (Books, Outcome) {
    (bk.(bookings := bk.bookings + [Booking(false, None, None)]), Applied)
  }

  function SetCancelled(bk: Books, b: nat, cancelled: bool): (Books, Outcome) {
    if b >= |bk.bookings| then (bk, Refused(BookingForbidden))
    else (bk.(bookings := bk.bookings[b := bk.bookings[b].(cancelled := cancelled)]), Applied)
  }

  /** Total and currency together, while neither a non-withdrawn plan nor a payment exists. */
  function SetFinancials(bk: Books, b: nat, total: int, currency: string, hasReason: bool): (Books, Outcome) {
    if b >= |bk.bookings| then (bk, Refused(BookingForbidden))
    else if bk.bookings[b].cancelled then (bk, Refused(BookingStatusNotPermitted))
    else if HasActivePlan(bk, b) || HasPayment(bk, b) then (bk, Refused(BookingFinancialsLocked))
    else if bk.bookings[b].currency == Some(currency) && bk.bookings[b].total == Some(total) then (bk, Unchanged)
    else if bk.bookings[b].total.Some? && !hasReason then (bk, Refused(PaymentConflict))
    else (bk.(bookings := bk.bookings[b := bk.bookings[b].(total := Some(total), currency := Some(currency))]), Applied)
  }

  predicate StructureOk(items: seq<Item>) {
    && (forall i, j | 0 <= i < |items| && 0 <= j < |items| && i != j :: items[i].sequenceNumber != items[j].sequenceNumber)
    && (forall i, j | 0 <= i < |items| && 0 <= j < |items| && items[i].isDeposit && items[j].isDeposit :: i == j)
    && (forall i | 0 <= i < |items| && items[i].isDeposit :: items[i].sequenceNumber == 1)
  }

  function InstallmentsOf(plan: nat, items: seq<Item>): (rows: seq<Installment>)
    ensures |rows| == |items|
  {
    seq(|items|, i requires 0 <= i < |items| => Installment(plan, items[i]))
  }

  function Propose(bk: Books, b: nat, items: seq<Item>): (Books, Outcome) {
    if !StructureOk(items) then (bk, Refused(PlanConflict))
    else if b >= |bk.bookings| then (bk, Refused(BookingForbidden))
    else if bk.bookings[b].cancelled then (bk, Refused(BookingStatusNotPermitted))
    else if bk.bookings[b].total.None? || bk.bookings[b].currency.None? then (bk, Refused(PlanConflict))
    else if HasActivePlan(bk, b) then (bk, Refused(PlanConflict))
    else
      (bk.(plans := bk.plans + [Plan(b, Proposed)],
           installments := bk.installments + InstallmentsOf(|bk.plans|, items)), Applied)
  }

  function SetPlan(bk: Books, plan: nat, status: PlanStatus): Books
    requires plan < |bk.plans|
  {
    bk.(plans := bk.plans[plan := bk.plans[plan].(status := status)])
  }

  function Approve(bk: Books, plan: nat): (Books, Outcome) {
    if plan >= |bk.plans| || bk.plans[plan].booking >= |bk.bookings| then (bk, Refused(PlanForbidden))
    else
      var booking := bk.bookings[bk.plans[plan].booking];
      if bk.plans[plan].status.Approved? then (bk, Unchanged)
      else if booking.cancelled then (bk, Refused(BookingStatusNotPermitted))
      else if !bk.plans[plan].status.Proposed? then (bk, Refused(PlanConflict))
      else if booking.total != Some(PlanTotal(bk.installments, plan)) then (bk, Refused(PlanConflict))
      else (SetPlan(bk, plan, Approved), Applied)
  }

  predicate IsTargeted(bk: Books, plan: nat) {
    exists a :: 0 <= a < |bk.allocations| && bk.allocations[a].installment < |bk.installments|
                && bk.installments[bk.allocations[a].installment].plan == plan
  }

  function Withdraw(bk: Books, plan: nat): (Books, Outcome) {
    if plan >= |bk.plans| then (bk, Refused(PlanForbidden))
    else if bk.plans[plan].status.Withdrawn? then (bk, Unchanged)
    else if !bk.plans[plan].status.Proposed? then (bk, Refused(PlanConflict))
    else if IsTargeted(bk, plan) then (bk, Refused(PlanConflict))
    else (SetPlan(bk, plan, Withdrawn), Applied)
  }

  // ---------------------------------------------------------------- payments

  function Transition(bk: Books, p: nat, next: PaymentStatus, key: Key): Books
    requires p < |bk.payments|
  {
    bk.(payments := bk.payments[p := bk.payments[p].(status := next)],
        statusKeys := bk.statusKeys[key := StatusChange(p, Some(bk.payments[p].status), next)])
  }

  function Record(bk: Books, b: nat, amount: int, key: Key): (Books, Outcome) {
    if b >= |bk.bookings| then (bk, Refused(BookingForbidden))
    else if key in bk.statusKeys then
      var change := bk.statusKeys[key];
      if change.previous.Some? || !change.next.Pending? || change.payment >= |bk.payments|
         || bk.payments[change.payment].booking != b || bk.payments[change.payment].amount != amount
      then (bk, Refused(KeyConflict)) else (bk, Unchanged)
    else if bk.bookings[b].cancelled then (bk, Refused(BookingStatusNotPermitted))
    else if bk.bookings[b].currency.None? then (bk, Refused(BookingCurrencyNotSet))
    else
      (bk.(payments := bk.payments + [Payment(b, amount, Pending)],
           statusKeys := bk.statusKeys[key := StatusChange(|bk.payments|, None, Pending)]), Applied)
  }

  /** A key seen before is answered by its own result or refused, never reused. */
  function Replay(bk: Books, p: nat, target: PaymentStatus, key: Key): Outcome
    requires key in bk.statusKeys
  {
    var change := bk.statusKeys[key];
    if change.payment != p || change.next != target then Refused(KeyConflict) else Unchanged
  }

  function ConfirmPayment(bk: Books, p: nat, key: Key): (Books, Outcome) {
    if key in bk.statusKeys then (bk, Replay(bk, p, Confirmed, key))
    else if p >= |bk.payments| then (bk, Refused(PaymentForbidden))
    else if bk.payments[p].booking < |bk.bookings| && bk.bookings[bk.payments[p].booking].cancelled then
      (bk, Refused(BookingStatusNotPermitted))
    else if !bk.payments[p].status.Pending? then (bk, Refused(InvalidTransition))
    else (Transition(bk, p, Confirmed, key), Applied)
  }

  function ReversePayment(bk: Books, p: nat, key: Key): (Books, Outcome) {
    if key in bk.statusKeys then (bk, Replay(bk, p, Reversed, key))
    else if p >= |bk.payments| then (bk, Refused(PaymentForbidden))
    else if !bk.payments[p].status.Confirmed? then (bk, Refused(InvalidTransition))
    else if RefundTotal(bk.refunds, p) > 0 then (bk, Refused(InvalidTransition))
    else (Transition(bk, p, Reversed, key), Applied)
  }

  predicate RefundsAllocation(bk: Books, p: nat, a: nat) {
    a < |bk.allocations| && bk.allocations[a].payment == p && !bk.allocations[a].reversed
  }

  /** A full or partial refund; linked to an allocation, or out of the payment's own unallocated credit. */
  function RefundPayment(bk: Books, p: nat, amount: int, allocation: Option<nat>, key: Key): (Books, Outcome) {
    if key in bk.refundKeys && bk.refundKeys[key] < |bk.refunds| then
      (bk, if bk.refunds[bk.refundKeys[key]] == Refund(p, amount, allocation) then Unchanged else Refused(KeyConflict))
    else if key in bk.statusKeys then (bk, Refused(KeyConflict))
    else if p >= |bk.payments| then (bk, Refused(PaymentForbidden))
    else if !bk.payments[p].status.Confirmed? then (bk, Refused(InvalidTransition))
    else if bk.payments[p].booking < |bk.bookings| && bk.bookings[bk.payments[p].booking].currency.None? then
      (bk, Refused(BookingCurrencyNotSet))
    else
      var newTotal := RefundTotal(bk.refunds, p) + amount;
      if newTotal > bk.payments[p].amount then (bk, Refused(RefundExceedsRemaining))
      else if allocation.Some? && !RefundsAllocation(bk, p, allocation.value) then (bk, Refused(AllocationNotPermitted))
      else if allocation.Some? && Through(bk.refunds, allocation.value) + amount > bk.allocations[allocation.value].amount then
        (bk, Refused(RefundExceedsRemaining))
      else if RawPaymentNet(bk, p) - (if allocation.Some? then amount else 0) > bk.payments[p].amount - newTotal then
        (bk, Refused(RefundExceedsRemaining))
      else
        var refunded := bk.(refunds := bk.refunds + [Refund(p, amount, allocation)],
                            refundKeys := bk.refundKeys[key := |bk.refunds|]);
        (if newTotal == bk.payments[p].amount then Transition(refunded, p, Refunded, key) else refunded, Applied)
  }

  // ---------------------------------------------------------------- allocations

  function Allocate(bk: Books, p: nat, i: nat, amount: int, key: Key): (Books, Outcome) {
    if key in bk.allocationKeys && bk.allocationKeys[key] < |bk.allocations| then
      var existing := bk.allocations[bk.allocationKeys[key]];
      (bk, if existing.payment == p && existing.installment == i && existing.amount == amount then Unchanged else Refused(KeyConflict))
    else if p >= |bk.payments| || bk.payments[p].booking >= |bk.bookings| then (bk, Refused(PaymentForbidden))
    else if bk.bookings[bk.payments[p].booking].cancelled then (bk, Refused(BookingStatusNotPermitted))
    else if bk.bookings[bk.payments[p].booking].currency.None? then (bk, Refused(BookingCurrencyNotSet))
    else if i >= |bk.installments| || bk.installments[i].plan >= |bk.plans|
            || bk.plans[bk.installments[i].plan].booking != bk.payments[p].booking then
      (bk, Refused(AllocationNotPermitted))
    else if !bk.plans[bk.installments[i].plan].status.Approved? then (bk, Refused(AllocationNotPermitted))
    else if RefundTotal(bk.refunds, p) > bk.payments[p].amount then (bk, Refused(IntegrityFailure))
    else if RawPaymentNet(bk, p) + amount > NetContribution(PaymentAt(bk, p)) then (bk, Refused(AllocationNotPermitted))
    else if InstallmentNet(bk, i) + amount > bk.installments[i].item.amount then (bk, Refused(AllocationNotPermitted))
    else
      (bk.(allocations := bk.allocations + [Allocation(p, i, amount, false)],
           allocationKeys := bk.allocationKeys[key := |bk.allocations|]), Applied)
  }

  predicate HasRefund(bk: Books, a: nat) {
    exists r :: 0 <= r < |bk.refunds| && bk.refunds[r].allocation == Some(a)
  }

  function ReverseAllocation(bk: Books, a: nat, key: Key): (Books, Outcome) {
    if key in bk.reversalKeys then (bk, if bk.reversalKeys[key] == a then Unchanged else Refused(KeyConflict))
    else if a >= |bk.allocations| then (bk, Refused(PaymentForbidden))
    else if bk.allocations[a].reversed || HasRefund(bk, a) then (bk, Refused(ReversalNotPermitted))
    else
      (bk.(allocations := bk.allocations[a := bk.allocations[a].(reversed := true)],
           reversalKeys := bk.reversalKeys[key := a]), Applied)
  }
}
