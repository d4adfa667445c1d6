/** The ledger invariants, and the proof that every operation keeps them. */
module BooksProofs {
  import opened Wrappers
  import opened Sequences
  import opened Calculations
  import opened Books

  datatype Event =
    | AddBookingEvent
    | SetCancelledEvent(booking: nat, cancelled: bool)
    | SetFinancialsEvent(booking: nat, total: int, currency: string, hasReason: bool)
    | ProposeEvent(booking: nat, items: seq<Item>)
    | ApproveEvent(plan: nat)
    | WithdrawEvent(plan: nat)
    | RecordEvent(booking: nat, amount: int, key: Key)
    | ConfirmEvent(payment: nat, key: Key)
    | ReverseEvent(payment: nat, key: Key)
    | RefundEvent(payment: nat, amount: int, allocation: Option<nat>, key: Key)
    | AllocateEvent(payment: nat, installment: nat, amount: int, key: Key)
    | ReverseAllocationEvent(target: nat, key: Key)

  /** What the request schemas admit: every amount is positive. */
  predicate WellFormed(e: Event) {
    match e
    case SetFinancialsEvent(_, total, _, _) => total > 0
    case ProposeEvent(_, items) => items != [] && forall i | 0 <= i < |items| :: items[i].amount > 0
    case RecordEvent(_, amount, _) => amount > 0
    case RefundEvent(_, amount, _, _) => amount > 0
    case AllocateEvent(_, _, amount, _) => amount > 0
    case _ => true
  }

  function Perform(bk: Books, e: Event): (Books, Outcome) {
    match e
    case AddBookingEvent => AddBooking(bk)
    case SetCancelledEvent(b, cancelled) => SetCancelled(bk, b, cancelled)
    case SetFinancialsEvent(b, total, currency, hasReason) => SetFinancials(bk, b, total, currency, hasReason)
    case ProposeEvent(b, items) => Propose(bk, b, items)
    case ApproveEvent(plan) => Approve(bk, plan)
    case WithdrawEvent(plan) => Withdraw(bk, plan)
    case RecordEvent(b, amount, key) => Record(bk, b, amount, key)
    case ConfirmEvent(p, key) => ConfirmPayment(bk, p, key)
    case ReverseEvent(p, key) => ReversePayment(bk, p, key)
    case RefundEvent(p, amount, allocation, key) => RefundPayment(bk, p, amount, allocation, key)
    case AllocateEvent(p, i, amount, key) => Allocate(bk, p, i, amount, key)
    case ReverseAllocationEvent(a, key) => ReverseAllocation(bk, a, key)
  }

  const EMPTY := Books([], [], [], [], [], [], map[], map[], map[], map[])

  function Run(bk: Books, events: seq<Event>): Books {
    if events == [] then bk else Perform(Run(bk, events[..|events| - 1]), events[|events| - 1]).0
  }

  predicate AllWellFormed(events: seq<Event>) {
    forall i | 0 <= i < |events| :: WellFormed(events[i])
  }

  // ---------------------------------------------------------------- invariants

  ghost predicate RefsOk(bk: Books) {
    && (forall i | 0 <= i < |bk.plans| :: bk.plans[i].booking < |bk.bookings|)
    && (forall i | 0 <= i < |bk.installments| :: bk.installments[i].plan < |bk.plans| && bk.installments[i].item.amount > 0)
    && (forall p | 0 <= p < |bk.payments| :: bk.payments[p].booking < |bk.bookings| && bk.payments[p].amount > 0)
    && (forall r | 0 <= r < |bk.refunds| :: RefundRefOk(bk, bk.refunds[r]))
    && (forall a | 0 <= a < |bk.allocations| ::
          && bk.allocations[a].payment < |bk.payments|
          && bk.allocations[a].installment < |bk.installments|
          && bk.allocations[a].amount > 0)
  }

  predicate RefundRefOk(bk: Books, r: Refund) {
    && r.payment < |bk.payments| && r.amount > 0
    && (r.allocation.Some? ==> r.allocation.value < |bk.allocations| && bk.allocations[r.allocation.value].payment == r.payment)
  }

  /** At most one active plan a booking; an approved one adds up; no plan or payment before the financials. */
  ghost predicate PlansOk(bk: Books) {
    && (forall i, j | 0 <= i < j < |bk.plans| && IsActive(bk.plans[i]) && IsActive(bk.plans[j]) ::
          bk.plans[i].booking != bk.plans[j].booking)
    && (forall i | 0 <= i < |bk.plans| :: PlanOk(bk, i))
    && (forall p | 0 <= p < |bk.payments| && bk.payments[p].booking < |bk.bookings| ::
          bk.bookings[bk.payments[p].booking].total.Some?)
    && (forall b | 0 <= b < |bk.bookings| :: bk.bookings[b].total.Some? <==> bk.bookings[b].currency.Some?)
  }

  predicate PlanOk(bk: Books, i: nat)
    requires i < |bk.plans|
  {
    bk.plans[i].booking < |bk.bookings| && IsActive(bk.plans[i]) ==>
      && bk.bookings[bk.plans[i].booking].total.Some?
      && (bk.plans[i].status.Approved? ==> bk.bookings[bk.plans[i].booking].total == Some(PlanTotal(bk.installments, i)))
  }

  /** Refunds stay within each payment and decide its status. */
  predicate PaymentOk(bk: Books, p: nat)
    requires p < |bk.payments|
  {
    var total := RefundTotal(bk.refunds, p);
    && 0 <= total
    && match bk.payments[p].status
       case Confirmed => total < bk.payments[p].amount
       case Refunded => total == bk.payments[p].amount
       case Pending => total == 0
       case Reversed => total == 0
       case _ => false
  }

  /** An allocation joins a settled payment to an installment of the same booking's approved plan. */
  predicate AllocationOk(bk: Books, a: nat)
    requires a < |bk.allocations|
  {
    var al := bk.allocations[a];
    && al.payment < |bk.payments| && al.installment < |bk.installments|
    && !bk.payments[al.payment].status.Pending?
    && bk.installments[al.installment].plan < |bk.plans|
    && var plan := bk.plans[bk.installments[al.installment].plan];
       plan.status.Approved? && plan.booking == bk.payments[al.payment].booking
  }

  /** What was refunded through an allocation stays within it; a reversed one has none. */
  predicate ThroughOk(bk: Books, a: nat)
    requires a < |bk.allocations|
  {
    var through := Through(bk.refunds, a);
    0 <= through <= bk.allocations[a].amount && (bk.allocations[a].reversed ==> through == 0)
  }

  ghost predicate RowsOk(bk: Books) {
    && (forall p | 0 <= p < |bk.payments| :: PaymentOk(bk, p))
    && (forall a | 0 <= a < |bk.allocations| :: AllocationOk(bk, a) && ThroughOk(bk, a))
  }

  /** Allocations stay within what a payment contributes and within what an installment asks for. */
  ghost predicate CapsOk(bk: Books) {
    && (forall p | 0 <= p < |bk.payments| :: PaymentNet(bk, p) <= NetContribution(PaymentAt(bk, p)))
    && (forall i | 0 <= i < |bk.installments| :: InstallmentNet(bk, i) <= bk.installments[i].item.amount)
  }

  ghost predicate Inv(bk: Books) {
    RefsOk(bk) && PlansOk(bk) && RowsOk(bk) && CapsOk(bk)
  }

  // ---------------------------------------------------------------- how the sums move

  lemma RefundTotalOne(refunds: seq<Refund>, r: Refund, p: nat)
    ensures RefundTotal(refunds + [r], p) == RefundTotal(refunds, p) + if r.payment == p then r.amount else 0
  {
    assert (refunds + [r])[..|refunds|] == refunds;
  }

  lemma ThroughOne(refunds: seq<Refund>, r: Refund, a: nat)
    ensures Through(refunds + [r], a) == Through(refunds, a) + if r.allocation == Some(a) then r.amount else 0
  {
    assert (refunds + [r])[..|refunds|] == refunds;
  }

  lemma {:induction false} NoRefundsYet(refunds: seq<Refund>, p: nat)
    requires forall r | 0 <= r < |refunds| :: refunds[r].payment != p
    ensures RefundTotal(refunds, p) == 0
  {
    if refunds != [] {
      NoRefundsYet(refunds[..|refunds| - 1], p);
    }
  }

  lemma {:induction false} NothingThroughYet(refunds: seq<Refund>, a: nat)
    requires forall r | 0 <= r < |refunds| :: refunds[r].allocation != Some(a)
    ensures Through(refunds, a) == 0
  {
    if refunds != [] {
      NothingThroughYet(refunds[..|refunds| - 1], a);
    }
  }

  lemma {:induction false} PlanTotalOfOthers(installments: seq<Installment>, more: seq<Installment>, plan: nat)
    requires forall i | 0 <= i < |more| :: more[i].plan != plan
    ensures PlanTotal(installments + more, plan) == PlanTotal(installments, plan)
  {
    if more == [] {
      assert installments + more == installments;
    } else {
      var n := |more| - 1;
      PlanTotalOfOthers(installments, more[..n], plan);
      assert (installments + more)[..|installments + more| - 1] == installments + more[..n];
    }
  }

  /** The tables other than bookings and plans, on which every net amount depends. */
  predicate SameMoney(bk: Books, bk': Books) {
    bk'.payments == bk.payments && bk'.refunds == bk.refunds && bk'.allocations == bk.allocations
  }

  lemma CapsFrame(bk: Books, bk': Books)
    requires CapsOk(bk) && SameMoney(bk, bk') && bk'.installments == bk.installments
    ensures CapsOk(bk')
  {
    assert Nets(bk') == Nets(bk);
    forall p | 0 <= p < |bk'.payments| ensures PaymentNet(bk', p) <= NetContribution(PaymentAt(bk', p)) {
      assert PaymentNet(bk, p) <= NetContribution(PaymentAt(bk, p));
    }
    forall i | 0 <= i < |bk'.installments| ensures InstallmentNet(bk', i) <= bk'.installments[i].item.amount {
      assert InstallmentNet(bk, i) <= bk.installments[i].item.amount;
    }
  }

  lemma RowsFrame(bk: Books, bk': Books)
    requires RowsOk(bk) && SameMoney(bk, bk') && bk'.installments == bk.installments
    requires |bk'.plans| == |bk.plans|
    requires forall i | 0 <= i < |bk.plans| :: bk'.plans[i].booking == bk.plans[i].booking
    requires forall i | 0 <= i < |bk.plans| && bk.plans[i].status.Approved? :: bk'.plans[i].status.Approved?
    ensures RowsOk(bk')
  {
    forall p | 0 <= p < |bk'.payments| ensures PaymentOk(bk', p) {
      assert PaymentOk(bk, p);
    }
    forall a | 0 <= a < |bk'.allocations| ensures AllocationOk(bk', a) && ThroughOk(bk', a) {
      assert AllocationOk(bk, a) && ThroughOk(bk, a);
    }
  }

  // ---------------------------------------------------------------- bookings and plans

  lemma BookingsFrame(bk: Books, bk': Books)
    requires RefsOk(bk) && PlansOk(bk)
    requires bk' == bk.(bookings := bk'.bookings) && |bk.bookings| <= |bk'.bookings|
    requires forall b | 0 <= b < |bk.bookings| ::
               bk'.bookings[b].total == bk.bookings[b].total || (!HasActivePlan(bk, b) && !HasPayment(bk, b))
    requires forall b | 0 <= b < |bk'.bookings| :: bk'.bookings[b].total.Some? <==> bk'.bookings[b].currency.Some?
    ensures RefsOk(bk') && PlansOk(bk')
  {
    forall r | 0 <= r < |bk.refunds| ensures RefundRefOk(bk', bk.refunds[r]) {
      assert RefundRefOk(bk, bk.refunds[r]);
    }
    forall i | 0 <= i < |bk'.plans| ensures PlanOk(bk', i) {
      assert PlanOk(bk, i);
    }
  }

  lemma PairedFinancials(bk: Books, b: nat)
    requires PlansOk(bk) && b < |bk.bookings|
    ensures bk.bookings[b].total.Some? <==> bk.bookings[b].currency.Some?
  {
  }

  lemma BookingsKeepInv(bk: Books, bk': Books)
    requires Inv(bk) && bk' == bk.(bookings := bk'.bookings) && |bk.bookings| <= |bk'.bookings|
    requires forall b | 0 <= b < |bk.bookings| ::
               bk'.bookings[b].total == bk.bookings[b].total || (!HasActivePlan(bk, b) && !HasPayment(bk, b))
    requires forall b | 0 <= b < |bk'.bookings| :: bk'.bookings[b].total.Some? <==> bk'.bookings[b].currency.Some?
    ensures Inv(bk')
  {
    hide RefsOk, PlansOk, CapsOk, RowsOk, HasActivePlan, HasPayment;
    CapsFrame(bk, bk');
    RowsFrame(bk, bk');
    BookingsFrame(bk, bk');
  }

  lemma AddBookingKeepsInv(bk: Books)
    requires Inv(bk)
    ensures Inv(AddBooking(bk).0)
  {
    hide RefsOk, CapsOk, RowsOk, HasActivePlan, HasPayment;
    BookingsKeepInv(bk, AddBooking(bk).0);
  }

  lemma SetCancelledKeepsInv(bk: Books, b: nat, cancelled: bool)
    requires Inv(bk)
    ensures Inv(SetCancelled(bk, b, cancelled).0)
  {
    hide RefsOk, CapsOk, RowsOk, HasActivePlan, HasPayment;
    BookingsKeepInv(bk, SetCancelled(bk, b, cancelled).0);
  }

  lemma SetFinancialsKeepsInv(bk: Books, b: nat, total: int, currency: string, hasReason: bool)
    requires Inv(bk)
    ensures Inv(SetFinancials(bk, b, total, currency, hasReason).0)
  {
    hide RefsOk, CapsOk, RowsOk, HasActivePlan, HasPayment;
    BookingsKeepInv(bk, SetFinancials(bk, b, total, currency, hasReason).0);
  }

  lemma PlanStatusKeepsPlans(bk: Books, plan: nat, status: PlanStatus)
    requires RefsOk(bk) && PlansOk(bk) && plan < |bk.plans| && bk.plans[plan].status.Proposed?
    requires status.Approved? ==> bk.bookings[bk.plans[plan].booking].total == Some(PlanTotal(bk.installments, plan))
    ensures RefsOk(SetPlan(bk, plan, status)) && PlansOk(SetPlan(bk, plan, status))
  {
    var bk' := SetPlan(bk, plan, status);
    forall r | 0 <= r < |bk.refunds| ensures RefundRefOk(bk', bk.refunds[r]) {
      assert RefundRefOk(bk, bk.refunds[r]);
    }
    forall i | 0 <= i < |bk'.plans| ensures PlanOk(bk', i) {
      assert PlanOk(bk, i);
    }
  }

  lemma ApproveKeepsInv(bk: Books, plan: nat)
    requires Inv(bk)
    ensures Inv(Approve(bk, plan).0)
  {
    hide RefsOk, PlansOk, CapsOk, RowsOk, PlanTotal;
    if Approve(bk, plan).1.Applied? {
      PlanStatusKeepsPlans(bk, plan, Approved);
      CapsFrame(bk, SetPlan(bk, plan, Approved));
      RowsFrame(bk, SetPlan(bk, plan, Approved));
    }
  }

  lemma WithdrawKeepsInv(bk: Books, plan: nat)
    requires Inv(bk)
    ensures Inv(Withdraw(bk, plan).0)
  {
    hide RefsOk, PlansOk, CapsOk, RowsOk, IsTargeted;
    if Withdraw(bk, plan).1.Applied? {
      PlanStatusKeepsPlans(bk, plan, Withdrawn);
      CapsFrame(bk, SetPlan(bk, plan, Withdrawn));
      RowsFrame(bk, SetPlan(bk, plan, Withdrawn));
    }
  }

  lemma ProposeKeepsInv(bk: Books, b: nat, items: seq<Item>)
    requires Inv(bk) && forall i | 0 <= i < |items| :: items[i].amount > 0
    ensures Inv(Propose(bk, b, items).0)
  {
    hide RefsOk, PlansOk, CapsOk, RowsOk, StructureOk, HasActivePlan;
    var (bk', outcome) := Propose(bk, b, items);
    if outcome.Applied? {
      var more := InstallmentsOf(|bk.plans|, items);
      ProposedRows(bk, bk', more);
      ProposedPlans(bk, bk', b, more);
      ProposedCaps(bk, bk', more);
      ProposedRefs(bk, bk', b, more);
    }
  }

  lemma ProposedRefs(bk: Books, bk': Books, b: nat, more: seq<Installment>)
    requires RefsOk(bk) && b < |bk.bookings|
    requires bk' == bk.(plans := bk.plans + [Plan(b, Proposed)], installments := bk.installments + more)
    requires forall i | 0 <= i < |more| :: more[i].plan == |bk.plans| && more[i].item.amount > 0
    ensures RefsOk(bk')
  {
    forall r | 0 <= r < |bk.refunds| ensures RefundRefOk(bk', bk.refunds[r]) {
      assert RefundRefOk(bk, bk.refunds[r]);
    }
  }

  lemma ProposedRows(bk: Books, bk': Books, more: seq<Installment>)
    requires RowsOk(bk) && SameMoney(bk, bk') && bk'.installments == bk.installments + more && bk.plans <= bk'.plans
    ensures RowsOk(bk')
  {
    forall p | 0 <= p < |bk'.payments| ensures PaymentOk(bk', p) {
      assert PaymentOk(bk, p);
    }
    forall a | 0 <= a < |bk'.allocations| ensures AllocationOk(bk', a) && ThroughOk(bk', a) {
      assert AllocationOk(bk, a) && ThroughOk(bk, a);
    }
  }

  lemma ProposedPlans(bk: Books, bk': Books, b: nat, more: seq<Installment>)
    requires RefsOk(bk) && PlansOk(bk) && b < |bk.bookings| && bk.bookings[b].total.Some? && !HasActivePlan(bk, b)
    requires bk'.bookings == bk.bookings && bk'.payments == bk.payments
    requires bk'.plans == bk.plans + [Plan(b, Proposed)] && bk'.installments == bk.installments + more
    requires forall i | 0 <= i < |more| :: more[i].plan == |bk.plans|
    ensures PlansOk(bk')
  {
    forall i | 0 <= i < |bk'.plans| ensures PlanOk(bk', i) {
      if i < |bk.plans| {
        assert PlanOk(bk, i);
        PlanTotalOfOthers(bk.installments, more, i);
      }
    }
  }

  lemma ProposedCaps(bk: Books, bk': Books, more: seq<Installment>)
    requires RefsOk(bk) && CapsOk(bk) && SameMoney(bk, bk') && bk'.installments == bk.installments + more
    requires forall i | 0 <= i < |more| :: more[i].item.amount > 0
    ensures CapsOk(bk')
  {
    assert Nets(bk') == Nets(bk);
    forall p | 0 <= p < |bk'.payments| ensures PaymentNet(bk', p) <= NetContribution(PaymentAt(bk', p)) {
      assert PaymentNet(bk, p) <= NetContribution(PaymentAt(bk, p));
    }
    forall i | 0 <= i < |bk'.installments| ensures InstallmentNet(bk', i) <= bk'.installments[i].item.amount {
      if i < |bk.installments| {
        assert InstallmentNet(bk, i) <= bk.installments[i].item.amount;
      } else {
        BucketOfZeros(InstallmentKeys(bk.allocations), Nets(bk), i);
      }
    }
  }

  // ---------------------------------------------------------------- payments

  /** What the invariant says of one payment. */
  lemma PaymentFacts(bk: Books, p: nat)
    requires RefsOk(bk) && RowsOk(bk) && p < |bk.payments|
    ensures PaymentOk(bk, p) && bk.payments[p].amount > 0
  {
  }

  lemma RecordKeepsInv(bk: Books, b: nat, amount: int, key: Key)
    requires Inv(bk) && amount > 0
    ensures Inv(Record(bk, b, amount, key).0)
  {
    hide RefsOk, CapsOk, RowsOk;
    var (bk', outcome) := Record(bk, b, amount, key);
    if outcome.Applied? {
      RecordedPayments(bk, bk', b, amount);
      RecordedRest(bk, bk', b, amount);
    }
  }

  lemma RecordedPayments(bk: Books, bk': Books, b: nat, amount: int)
    requires RefsOk(bk) && RowsOk(bk) && amount > 0
    requires bk' == bk.(payments := bk.payments + [Payment(b, amount, Pending)], statusKeys := bk'.statusKeys)
    ensures RowsOk(bk')
  {
    forall p | 0 <= p < |bk'.payments| ensures PaymentOk(bk', p) {
      if p < |bk.payments| {
        assert PaymentOk(bk, p);
      } else {
        assert forall r | 0 <= r < |bk.refunds| :: RefundRefOk(bk, bk.refunds[r]);
        NoRefundsYet(bk.refunds, p);
      }
    }
    forall a | 0 <= a < |bk'.allocations| ensures AllocationOk(bk', a) && ThroughOk(bk', a) {
      assert AllocationOk(bk, a) && ThroughOk(bk, a);
    }
  }

  lemma RecordedRest(bk: Books, bk': Books, b: nat, amount: int)
    requires Inv(bk) && b < |bk.bookings| && bk.bookings[b].total.Some? && amount > 0
    requires bk' == bk.(payments := bk.payments + [Payment(b, amount, Pending)], statusKeys := bk'.statusKeys)
    ensures RefsOk(bk') && PlansOk(bk') && CapsOk(bk')
  {
    forall r | 0 <= r < |bk.refunds| ensures RefundRefOk(bk', bk.refunds[r]) {
      assert RefundRefOk(bk, bk.refunds[r]);
    }
    forall i | 0 <= i < |bk'.plans| ensures PlanOk(bk', i) {
      assert PlanOk(bk, i);
    }
    forall a | 0 <= a < |bk.allocations| ensures bk.allocations[a].payment < |bk.payments| {
      assert AllocationOk(bk, a);
    }
    assert Nets(bk') == Nets(bk);
    forall p | 0 <= p < |bk'.payments| ensures PaymentNet(bk', p) <= NetContribution(PaymentAt(bk', p)) {
      if p < |bk.payments| {
        assert PaymentNet(bk, p) <= NetContribution(PaymentAt(bk, p));
      } else {
        BucketOfZeros(PaymentKeys(bk.allocations), Nets(bk), p);
      }
    }
    forall i | 0 <= i < |bk'.installments| ensures InstallmentNet(bk', i) <= bk'.installments[i].item.amount {
      assert InstallmentNet(bk, i) <= bk.installments[i].item.amount;
    }
  }

  /** No allocation's net amount rises and its keys stay, so no total over allocations rises. */
  lemma NetsFall(bk: Books, bk': Books)
    requires |bk'.allocations| == |bk.allocations|
    requires forall a | 0 <= a < |bk.allocations| ::
               && bk'.allocations[a].payment == bk.allocations[a].payment
               && bk'.allocations[a].installment == bk.allocations[a].installment
               && NetOf(ViewAt(bk', a)) <= NetOf(ViewAt(bk, a))
    ensures forall p :: PaymentNet(bk', p) <= PaymentNet(bk, p)
    ensures forall i :: InstallmentNet(bk', i) <= InstallmentNet(bk, i)
  {
    assert PaymentKeys(bk'.allocations) == PaymentKeys(bk.allocations);
    assert InstallmentKeys(bk'.allocations) == InstallmentKeys(bk.allocations);
    forall p: nat ensures PaymentNet(bk', p) <= PaymentNet(bk, p) {
      BucketMonotone(PaymentKeys(bk.allocations), Nets(bk'), Nets(bk), p);
    }
    forall i: nat ensures InstallmentNet(bk', i) <= InstallmentNet(bk, i) {
      BucketMonotone(InstallmentKeys(bk.allocations), Nets(bk'), Nets(bk), i);
    }
  }

  /** Only payment p's status changes, and not to or from Pending once it has allocations. */
  predicate StatusMoved(bk: Books, bk': Books, p: nat, next: PaymentStatus)
  {
    p < |bk.payments| && bk' == bk.(payments := bk.payments[p := bk.payments[p].(status := next)], statusKeys := bk'.statusKeys)
  }

  lemma StatusMovedRest(bk: Books, bk': Books, p: nat, next: PaymentStatus)
    requires RefsOk(bk) && PlansOk(bk) && RowsOk(bk) && StatusMoved(bk, bk', p, next) && !next.Pending? && PaymentOk(bk', p)
    ensures RefsOk(bk') && PlansOk(bk') && RowsOk(bk')
  {
    forall r | 0 <= r < |bk.refunds| ensures RefundRefOk(bk', bk.refunds[r]) {
      assert RefundRefOk(bk, bk.refunds[r]);
    }
    forall i | 0 <= i < |bk'.plans| ensures PlanOk(bk', i) {
      assert PlanOk(bk, i);
    }
    forall a | 0 <= a < |bk'.allocations| ensures AllocationOk(bk', a) && ThroughOk(bk', a) {
      assert AllocationOk(bk, a) && ThroughOk(bk, a);
    }
    forall x | 0 <= x < |bk'.payments| ensures PaymentOk(bk', x) {
      assert PaymentOk(bk, x);
    }
  }

  /** No payment but p has another contribution, so where no net amount rises only p's cap is to be shown. */
  lemma CapsAfterMove(bk: Books, bk': Books, p: nat, next: PaymentStatus)
    requires CapsOk(bk) && StatusMoved(bk, bk', p, next)
    requires forall a | 0 <= a < |bk.allocations| :: NetOf(ViewAt(bk', a)) <= NetOf(ViewAt(bk, a))
    requires PaymentNet(bk', p) <= NetContribution(PaymentAt(bk', p))
    ensures CapsOk(bk')
  {
    NetsFall(bk, bk');
    forall x | 0 <= x < |bk'.payments| ensures PaymentNet(bk', x) <= NetContribution(PaymentAt(bk', x)) {
      if x != p {
        assert PaymentNet(bk, x) <= NetContribution(PaymentAt(bk, x));
      }
    }
    forall i | 0 <= i < |bk'.installments| ensures InstallmentNet(bk', i) <= bk'.installments[i].item.amount {
      assert InstallmentNet(bk, i) <= bk.installments[i].item.amount;
    }
  }

  lemma ConfirmedCaps(bk: Books, bk': Books, p: nat)
    requires RowsOk(bk) && CapsOk(bk) && StatusMoved(bk, bk', p, Confirmed) && bk.payments[p].status.Pending?
    ensures CapsOk(bk')
  {
    forall a | 0 <= a < |bk.allocations| ensures NetOf(ViewAt(bk', a)) == NetOf(ViewAt(bk, a)) && bk.allocations[a].payment != p {
      assert AllocationOk(bk, a);
    }
    BucketOfZeros(PaymentKeys(bk'.allocations), Nets(bk'), p);
    CapsAfterMove(bk, bk', p, Confirmed);
  }

  lemma ReversedCaps(bk: Books, bk': Books, p: nat)
    requires RowsOk(bk) && CapsOk(bk) && StatusMoved(bk, bk', p, Reversed)
    ensures CapsOk(bk')
  {
    forall a | 0 <= a < |bk.allocations| ensures NetOf(ViewAt(bk', a)) <= NetOf(ViewAt(bk, a)) {
      assert ThroughOk(bk, a);
    }
    BucketOfZeros(PaymentKeys(bk'.allocations), Nets(bk'), p);
    CapsAfterMove(bk, bk', p, Reversed);
  }

  lemma ConfirmKeepsInv(bk: Books, p: nat, key: Key)
    requires Inv(bk)
    ensures Inv(ConfirmPayment(bk, p, key).0)
  {
    hide RefsOk, PlansOk, RowsOk, CapsOk, RefundTotal;
    var (bk', outcome) := ConfirmPayment(bk, p, key);
    if outcome.Applied? {
      PaymentFacts(bk, p);
      StatusMovedRest(bk, bk', p, Confirmed);
      ConfirmedCaps(bk, bk', p);
    }
  }

  lemma ReverseKeepsInv(bk: Books, p: nat, key: Key)
    requires Inv(bk)
    ensures Inv(ReversePayment(bk, p, key).0)
  {
    hide RefsOk, PlansOk, RowsOk, CapsOk, RefundTotal;
    var (bk', outcome) := ReversePayment(bk, p, key);
    if outcome.Applied? {
      PaymentFacts(bk, p);
      StatusMovedRest(bk, bk', p, Reversed);
      ReversedCaps(bk, bk', p);
    }
  }

  // ---------------------------------------------------------------- refunds

  /** The payment-side sum that ignores status is the net amount of any payment that contributes. */
  lemma RawIsNet(bk: Books, p: nat)
    requires p < |bk.payments| && Contributes(bk.payments[p].status)
    ensures RawPaymentNet(bk, p) == PaymentNet(bk, p)
  {
    BucketAgree(PaymentKeys(bk.allocations), RawNets(bk), Nets(bk), p);
  }

  /** Before its status moves: one more refund row of a confirmed payment. */
  lemma RefundRowKeepsRows(bk: Books, bk': Books, r: Refund)
    requires RefsOk(bk) && PlansOk(bk) && RowsOk(bk) && RefundRefOk(bk, r)
    requires bk' == bk.(refunds := bk.refunds + [r], refundKeys := bk'.refundKeys)
    requires r.allocation.Some? ==>
               && !bk.allocations[r.allocation.value].reversed
               && Through(bk.refunds, r.allocation.value) + r.amount <= bk.allocations[r.allocation.value].amount
    ensures RefsOk(bk') && PlansOk(bk')
    ensures forall a | 0 <= a < |bk'.allocations| :: AllocationOk(bk', a) && ThroughOk(bk', a)
    ensures forall p | 0 <= p < |bk'.payments| && p != r.payment :: PaymentOk(bk', p)
  {
    forall x | 0 <= x < |bk'.refunds| ensures RefundRefOk(bk', bk'.refunds[x]) {
      if x < |bk.refunds| {
        assert RefundRefOk(bk, bk.refunds[x]);
      }
    }
    forall i | 0 <= i < |bk'.plans| ensures PlanOk(bk', i) {
      assert PlanOk(bk, i);
    }
    forall a | 0 <= a < |bk'.allocations| ensures AllocationOk(bk', a) && ThroughOk(bk', a) {
      assert AllocationOk(bk, a) && ThroughOk(bk, a);
      ThroughOne(bk.refunds, r, a);
    }
    forall p | 0 <= p < |bk'.payments| && p != r.payment ensures PaymentOk(bk', p) {
      assert PaymentOk(bk, p);
      RefundTotalOne(bk.refunds, r, p);
    }
  }

  /** A linked refund lowers exactly its allocation's net amount; an unlinked one lowers none. */
  lemma RefundMovesNets(bk: Books, bk': Books, r: Refund, next: PaymentStatus)
    requires RefsOk(bk) && RefundRefOk(bk, r) && Contributes(next) && Contributes(bk.payments[r.payment].status)
    requires bk'.payments == bk.payments[r.payment := bk.payments[r.payment].(status := next)]
    requires bk'.refunds == bk.refunds + [r] && bk'.allocations == bk.allocations
    requires r.allocation.Some? ==> !bk.allocations[r.allocation.value].reversed
    ensures forall p :: PaymentNet(bk', p) == PaymentNet(bk, p) - if r.allocation.Some? && r.payment == p then r.amount else 0
    ensures forall i :: InstallmentNet(bk', i) <= InstallmentNet(bk, i)
  {
    forall a | 0 <= a < |bk.allocations|
      ensures NetOf(ViewAt(bk', a)) == NetOf(ViewAt(bk, a)) - if r.allocation == Some(a) then r.amount else 0
    {
      ThroughOne(bk.refunds, r, a);
    }
    NetsFall(bk, bk');
    forall p: nat
      ensures PaymentNet(bk', p) == PaymentNet(bk, p) - if r.allocation.Some? && r.payment == p then r.amount else 0
    {
      if r.allocation.Some? {
        var a := r.allocation.value;
        assert Nets(bk') == Nets(bk)[a := Nets(bk)[a] - r.amount];
        BucketUpdate(PaymentKeys(bk.allocations), Nets(bk), a, Nets(bk)[a] - r.amount, p);
      } else {
        assert Nets(bk') == Nets(bk);
      }
    }
  }

  lemma RefundKeepsCaps(bk: Books, bk': Books, r: Refund, next: PaymentStatus)
    requires RefsOk(bk) && CapsOk(bk) && RefundRefOk(bk, r) && Contributes(next) && Contributes(bk.payments[r.payment].status)
    requires bk'.payments == bk.payments[r.payment := bk.payments[r.payment].(status := next)]
    requires bk'.refunds == bk.refunds + [r] && bk'.allocations == bk.allocations && bk'.installments == bk.installments
    requires r.allocation.Some? ==> !bk.allocations[r.allocation.value].reversed
    requires PaymentNet(bk, r.payment) - (if r.allocation.Some? then r.amount else 0)
             <= bk.payments[r.payment].amount - RefundTotal(bk.refunds, r.payment) - r.amount
    ensures CapsOk(bk')
  {
    RefundMovesNets(bk, bk', r, next);
    forall p | 0 <= p < |bk'.payments| ensures PaymentNet(bk', p) <= NetContribution(PaymentAt(bk', p)) {
      RefundTotalOne(bk.refunds, r, p);
      assert PaymentNet(bk, p) <= NetContribution(PaymentAt(bk, p));
    }
    forall i | 0 <= i < |bk'.installments| ensures InstallmentNet(bk', i) <= bk'.installments[i].item.amount {
      assert InstallmentNet(bk, i) <= bk.installments[i].item.amount;
    }
  }

  /** What the guards of an accepted refund establish, and the two rows it leaves. */
  lemma AcceptedRefund(bk: Books, p: nat, amount: int, allocation: Option<nat>, key: Key)
    requires RowsOk(bk) && RefundPayment(bk, p, amount, allocation, key).1.Applied? && amount > 0
    ensures p < |bk.payments| && bk.payments[p].status.Confirmed?
    ensures RefundRefOk(bk, Refund(p, amount, allocation))
    ensures allocation.Some? ==>
              && !bk.allocations[allocation.value].reversed
              && Through(bk.refunds, allocation.value) + amount <= bk.allocations[allocation.value].amount
    ensures PaymentNet(bk, p) - (if allocation.Some? then amount else 0)
            <= bk.payments[p].amount - RefundTotal(bk.refunds, p) - amount
    ensures var bk' := RefundPayment(bk, p, amount, allocation, key).0;
            var next := bk'.payments[p].status;
            var mid := bk.(refunds := bk.refunds + [Refund(p, amount, allocation)], refundKeys := bk'.refundKeys);
            Contributes(next) && StatusMoved(mid, bk', p, next) && PaymentOk(bk', p)
  {
    hide RawPaymentNet, PaymentNet, Through, RefundTotal;
    assert PaymentOk(bk, p);
    RawIsNet(bk, p);
    RefundTotalOne(bk.refunds, Refund(p, amount, allocation), p);
  }

  lemma RefundKeepsInv(bk: Books, p: nat, amount: int, allocation: Option<nat>, key: Key)
    requires Inv(bk) && amount > 0
    ensures Inv(RefundPayment(bk, p, amount, allocation, key).0)
  {
    hide RefsOk, PlansOk, CapsOk, RowsOk, RefundPayment, PaymentNet, Through, RefundTotal;
    var (bk', outcome) := RefundPayment(bk, p, amount, allocation, key);
    var r := Refund(p, amount, allocation);
    if outcome.Applied? {
      AcceptedRefund(bk, p, amount, allocation, key);
      var next := bk'.payments[p].status;
      var mid := bk.(refunds := bk.refunds + [r], refundKeys := bk'.refundKeys);
      RefundRowKeepsRows(bk, mid, r);
      RefundKeepsCaps(bk, bk', r, next);
      RefundStatus(mid, bk', p, next);
    } else {
      RefusedRefund(bk, p, amount, allocation, key);
    }
  }

  lemma RefusedRefund(bk: Books, p: nat, amount: int, allocation: Option<nat>, key: Key)
    requires !RefundPayment(bk, p, amount, allocation, key).1.Applied?
    ensures RefundPayment(bk, p, amount, allocation, key).0 == bk
  {
  }

  lemma RefundStatus(mid: Books, bk': Books, p: nat, next: PaymentStatus)
    requires RefsOk(mid) && PlansOk(mid) && p < |mid.payments|
    requires forall a | 0 <= a < |mid.allocations| :: AllocationOk(mid, a) && ThroughOk(mid, a)
    requires forall x | 0 <= x < |mid.payments| && x != p :: PaymentOk(mid, x)
    requires StatusMoved(mid, bk', p, next) && !next.Pending? && PaymentOk(bk', p)
    ensures RefsOk(bk') && PlansOk(bk') && RowsOk(bk')
  {
    forall r | 0 <= r < |mid.refunds| ensures RefundRefOk(bk', mid.refunds[r]) {
      assert RefundRefOk(mid, mid.refunds[r]);
    }
    forall i | 0 <= i < |bk'.plans| ensures PlanOk(bk', i) {
      assert PlanOk(mid, i);
    }
    forall a | 0 <= a < |bk'.allocations| ensures AllocationOk(bk', a) && ThroughOk(bk', a) {
      assert AllocationOk(mid, a) && ThroughOk(mid, a);
    }
    forall x | 0 <= x < |bk'.payments| ensures PaymentOk(bk', x) {
      if x != p {
        assert PaymentOk(mid, x);
      }
    }
  }

  // ---------------------------------------------------------------- allocations

  lemma AllocateKeepsInv(bk: Books, p: nat, i: nat, amount: int, key: Key)
    requires Inv(bk) && amount > 0
    ensures Inv(Allocate(bk, p, i, amount, key).0)
  {
    hide RefsOk, PlansOk, CapsOk, RowsOk, RawPaymentNet, PaymentNet, InstallmentNet, RefundTotal, Through;
    var (bk', outcome) := Allocate(bk, p, i, amount, key);
    if outcome.Applied? {
      var al := Allocation(p, i, amount, false);
      RawNonNegative(bk, p);
      AllocatedRows(bk, bk', al);
      RawIsNet(bk, p);
      AllocatedCaps(bk, bk', al);
    }
  }

  /** A positive amount fits only into a positive contribution, so the payment contributes. */
  lemma RawNonNegative(bk: Books, p: nat)
    requires RowsOk(bk)
    ensures RawPaymentNet(bk, p) >= 0
  {
    var zeros := seq(|bk.allocations|, a requires 0 <= a < |bk.allocations| => 0);
    forall a | 0 <= a < |bk.allocations| ensures RawNets(bk)[a] >= 0 {
      assert ThroughOk(bk, a);
    }
    BucketMonotone(PaymentKeys(bk.allocations), zeros, RawNets(bk), p);
    BucketOfZeros(PaymentKeys(bk.allocations), zeros, p);
  }

  lemma AllocatedRows(bk: Books, bk': Books, al: Allocation)
    requires RefsOk(bk) && PlansOk(bk) && RowsOk(bk)
    requires bk' == bk.(allocations := bk.allocations + [al], allocationKeys := bk'.allocationKeys)
    requires al.payment < |bk.payments| && al.installment < |bk.installments| && al.amount > 0 && !al.reversed
    requires Contributes(bk.payments[al.payment].status)
    requires bk.plans[bk.installments[al.installment].plan].status.Approved?
    requires bk.plans[bk.installments[al.installment].plan].booking == bk.payments[al.payment].booking
    ensures RefsOk(bk') && PlansOk(bk') && RowsOk(bk')
    ensures Through(bk.refunds, |bk.allocations|) == 0
  {
    forall r | 0 <= r < |bk.refunds| ensures RefundRefOk(bk', bk.refunds[r]) && bk.refunds[r].allocation != Some(|bk.allocations|) {
      assert RefundRefOk(bk, bk.refunds[r]);
    }
    NothingThroughYet(bk.refunds, |bk.allocations|);
    forall i | 0 <= i < |bk'.plans| ensures PlanOk(bk', i) {
      assert PlanOk(bk, i);
    }
    forall a | 0 <= a < |bk'.allocations| ensures AllocationOk(bk', a) && ThroughOk(bk', a) {
      if a < |bk.allocations| {
        assert AllocationOk(bk, a) && ThroughOk(bk, a);
      }
    }
    forall p | 0 <= p < |bk'.payments| ensures PaymentOk(bk', p) {
      assert PaymentOk(bk, p);
    }
  }

  lemma AllocatedCaps(bk: Books, bk': Books, al: Allocation)
    requires CapsOk(bk)
    requires bk' == bk.(allocations := bk.allocations + [al], allocationKeys := bk'.allocationKeys)
    requires al.payment < |bk.payments| && al.installment < |bk.installments| && !al.reversed
    requires Contributes(bk.payments[al.payment].status) && Through(bk.refunds, |bk.allocations|) == 0
    requires PaymentNet(bk, al.payment) + al.amount <= NetContribution(PaymentAt(bk, al.payment))
    requires InstallmentNet(bk, al.installment) + al.amount <= bk.installments[al.installment].item.amount
    ensures CapsOk(bk')
  {
    assert Nets(bk') == Nets(bk) + [al.amount];
    assert PaymentKeys(bk'.allocations) == PaymentKeys(bk.allocations) + [al.payment];
    assert InstallmentKeys(bk'.allocations) == InstallmentKeys(bk.allocations) + [al.installment];
    forall p | 0 <= p < |bk'.payments| ensures PaymentNet(bk', p) <= NetContribution(PaymentAt(bk', p)) {
      BucketAppend(PaymentKeys(bk.allocations), Nets(bk), al.payment, al.amount, p);
      assert PaymentNet(bk, p) <= NetContribution(PaymentAt(bk, p));
    }
    forall i | 0 <= i < |bk'.installments| ensures InstallmentNet(bk', i) <= bk'.installments[i].item.amount {
      BucketAppend(InstallmentKeys(bk.allocations), Nets(bk), al.installment, al.amount, i);
      assert InstallmentNet(bk, i) <= bk.installments[i].item.amount;
    }
  }

  lemma ReverseAllocationKeepsInv(bk: Books, a: nat, key: Key)
    requires Inv(bk)
    ensures Inv(ReverseAllocation(bk, a, key).0)
  {
    hide RefsOk, PlansOk, RowsOk, CapsOk, Through;
    var (bk', outcome) := ReverseAllocation(bk, a, key);
    if outcome.Applied? {
      NothingThroughYet(bk.refunds, a);
      ReversedRows(bk, bk', a);
      FreedCaps(bk, bk', a);
    }
  }

  lemma FreedCaps(bk: Books, bk': Books, x: nat)
    requires RowsOk(bk) && CapsOk(bk) && x < |bk.allocations|
    requires bk' == bk.(allocations := bk.allocations[x := bk.allocations[x].(reversed := true)], reversalKeys := bk'.reversalKeys)
    ensures CapsOk(bk')
  {
    forall a | 0 <= a < |bk.allocations| ensures NetOf(ViewAt(bk', a)) <= NetOf(ViewAt(bk, a)) {
      assert ThroughOk(bk, a);
    }
    NetsFall(bk, bk');
    forall p | 0 <= p < |bk'.payments| ensures PaymentNet(bk', p) <= NetContribution(PaymentAt(bk', p)) {
      assert PaymentNet(bk, p) <= NetContribution(PaymentAt(bk, p));
    }
    forall i | 0 <= i < |bk'.installments| ensures InstallmentNet(bk', i) <= bk'.installments[i].item.amount {
      assert InstallmentNet(bk, i) <= bk.installments[i].item.amount;
    }
  }

  lemma ReversedRows(bk: Books, bk': Books, x: nat)
    requires RefsOk(bk) && PlansOk(bk) && RowsOk(bk) && x < |bk.allocations| && Through(bk.refunds, x) == 0
    requires bk' == bk.(allocations := bk.allocations[x := bk.allocations[x].(reversed := true)], reversalKeys := bk'.reversalKeys)
    ensures RefsOk(bk') && PlansOk(bk') && RowsOk(bk')
  {
    forall r | 0 <= r < |bk.refunds| ensures RefundRefOk(bk', bk.refunds[r]) {
      assert RefundRefOk(bk, bk.refunds[r]);
    }
    forall i | 0 <= i < |bk'.plans| ensures PlanOk(bk', i) {
      assert PlanOk(bk, i);
    }
    forall a | 0 <= a < |bk'.allocations| ensures AllocationOk(bk', a) && ThroughOk(bk', a) {
      assert AllocationOk(bk, a) && ThroughOk(bk, a);
    }
    forall p | 0 <= p < |bk'.payments| ensures PaymentOk(bk', p) {
      assert PaymentOk(bk, p);
    }
  }

  // ---------------------------------------------------------------- every event, every run

  /** Every operation the schemas admit keeps every invariant of the ledger. */
  lemma StepKeepsInv(bk: Books, e: Event)
    requires Inv(bk) && WellFormed(e)
    ensures Inv(Perform(bk, e).0)
  {
    hide Inv, AddBooking, SetCancelled, SetFinancials, Propose, Approve, Withdraw;
    hide Record, ConfirmPayment, ReversePayment, RefundPayment, Allocate, ReverseAllocation;
    match e
    case AddBookingEvent => AddBookingKeepsInv(bk);
    case SetCancelledEvent(b, cancelled) => SetCancelledKeepsInv(bk, b, cancelled);
    case SetFinancialsEvent(b, total, currency, hasReason) => SetFinancialsKeepsInv(bk, b, total, currency, hasReason);
    case ProposeEvent(b, items) => ProposeKeepsInv(bk, b, items);
    case ApproveEvent(plan) => ApproveKeepsInv(bk, plan);
    case WithdrawEvent(plan) => WithdrawKeepsInv(bk, plan);
    case RecordEvent(b, amount, key) => RecordKeepsInv(bk, b, amount, key);
    case ConfirmEvent(p, key) => ConfirmKeepsInv(bk, p, key);
    case ReverseEvent(p, key) => ReverseKeepsInv(bk, p, key);
    case RefundEvent(p, amount, allocation, key) => RefundKeepsInv(bk, p, amount, allocation, key);
    case AllocateEvent(p, i, amount, key) => AllocateKeepsInv(bk, p, i, amount, key);
    case ReverseAllocationEvent(a, key) => ReverseAllocationKeepsInv(bk, a, key);
  }

  lemma {:induction false} RunKeepsInv(bk: Books, events: seq<Event>)
    requires Inv(bk) && AllWellFormed(events)
    ensures Inv(Run(bk, events))
  {
    if events != [] {
      var n := |events| - 1;
      RunKeepsInv(bk, events[..n]);
      StepKeepsInv(Run(bk, events[..n]), events[n]);
    }
  }

  /** Every state of every run from empty tables satisfies the ledger invariants. */
  lemma LedgerStaysConsistent(events: seq<Event>)
    requires AllWellFormed(events)
    ensures Inv(Run(EMPTY, events))
  {
    RunKeepsInv(EMPTY, events);
  }
}
