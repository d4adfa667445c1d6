/** The batch reader and the nested reader of one booking produce the same record. */
module ExportBatch {
  import opened Wrappers
  import opened Sequences
  import opened Calculations
  import opened ExportJoin

  function InstallmentPlan(i: InstallmentRow): Id { i.plan }
  function AllocationInstallment(a: AllocationRow): Id { a.installment }
  function RefundAllocationKey(r: RefundAllocationRow): Id { r.allocation }
  function PaymentBooking(p: PaymentRow): Id { p.booking }
  function RefundPaymentKey(r: RefundRow): Id { r.payment }
  function RefundAllocationAmount(r: RefundAllocationRow): int { r.amount }
  function RefundAmount(r: RefundRow): int { r.amount }

  /** What a record is built from: the plan and payments of one booking, and lookups by parent id. */
  datatype Access = Access(
    plan: Option<PlanRow>,
    installmentsOf: Id -> seq<InstallmentRow>,
    allocationsOf: Id -> seq<AllocationRow>,
    isReversed: Id -> bool,
    refundedThrough: Id -> int,
    payments: seq<PaymentRow>,
    refundTotal: Id -> int,
    receiptOf: Id -> Option<ReceiptData>
  )

  function AllocationsData(ac: Access, rows: seq<AllocationRow>): (data: seq<AllocationData>)
    ensures |data| == |rows|
  {
    seq(|rows|, k requires 0 <= k < |rows| =>
      var a := rows[k];
      AllocationData(a.id, a.payment, AllocationView(a.amount, a.paymentStatus, ac.isReversed(a.id), ac.refundedThrough(a.id))))
  }

  function InstallmentsData(ac: Access, rows: seq<InstallmentRow>): (data: seq<InstallmentData>)
    ensures |data| == |rows|
  {
    seq(|rows|, k requires 0 <= k < |rows| =>
      InstallmentData(rows[k].id, rows[k].dueDate, rows[k].amount, AllocationsData(ac, ac.allocationsOf(rows[k].id))))
  }

  function PaymentsData(ac: Access, rows: seq<PaymentRow>): (data: seq<PaymentData>)
    ensures |data| == |rows|
  {
    seq(|rows|, k requires 0 <= k < |rows| =>
      PaymentData(rows[k].id, PaymentView(rows[k].status, rows[k].amount, ac.refundTotal(rows[k].id)), ac.receiptOf(rows[k].id)))
  }

  function Compose(ac: Access, booking: BookingRow): BookingData {
    BookingData(
      booking,
      if ac.plan.None? then None
      else Some(PlanData(ac.plan.value.id, ac.plan.value.status, InstallmentsData(ac, ac.installmentsOf(ac.plan.value.id)))),
      PaymentsData(ac, ac.payments))
  }

  // ---------------------------------------------------------------- the batch reader

  datatype Flat = Flat(
    plans: seq<PlanRow>,
    installments: seq<InstallmentRow>,
    allocations: seq<AllocationRow>,
    reversals: seq<ReversalRow>,
    refundAllocations: seq<RefundAllocationRow>,
    payments: seq<PaymentRow>,
    refunds: seq<RefundRow>,
    receipts: seq<ReceiptRow>
  )

  /** `new Map(rows.map(...))`: a later row for the same booking replaces an earlier one. */
  function LastPlan(rows: seq<PlanRow>, b: Id): (r: Option<PlanRow>)
    ensures r.Some? ==> r.value in rows && r.value.booking == b
    ensures r.None? ==> forall p | p in rows :: p.booking != b
  {
    if rows == [] then None
    else if rows[|rows| - 1].booking == b then Some(rows[|rows| - 1])
    else LastPlan(rows[..|rows| - 1], b)
  }

  function LastReceipt(rows: seq<ReceiptRow>, p: Id): (r: Option<ReceiptRow>)
    ensures r.Some? ==> r.value in rows && r.value.payment == p
    ensures r.None? ==> forall x | x in rows :: x.payment != p
  {
    if rows == [] then None
    else if rows[|rows| - 1].payment == p then Some(rows[|rows| - 1])
    else LastReceipt(rows[..|rows| - 1], p)
  }

  function ToReceiptData(receipt: Option<ReceiptRow>): Option<ReceiptData> {
    if receipt.None? then None else Some(ReceiptData(receipt.value.number, receipt.value.issuedAt))
  }

  predicate HasReversal(rows: seq<ReversalRow>, a: Id) {
    exists k :: 0 <= k < |rows| && rows[k].allocation == a
  }

  function BatchAccess(flat: Flat, b: Id): Access {
    Access(
      LastPlan(flat.plans, b),
      id => Group(flat.installments, InstallmentPlan, id),
      id => Group(flat.allocations, AllocationInstallment, id),
      id => HasReversal(flat.reversals, id),
      id => Total(Group(flat.refundAllocations, RefundAllocationKey, id), RefundAllocationAmount),
      Group(flat.payments, PaymentBooking, b),
      id => Total(Group(flat.refunds, RefundPaymentKey, id), RefundAmount),
      id => ToReceiptData(LastReceipt(flat.receipts, id)))
  }

  datatype Maps = Maps(
    installmentsByPlan: map<Id, seq<InstallmentRow>>,
    allocationsByInstallment: map<Id, seq<AllocationRow>>,
    reversed: set<Id>,
    refundAllocationsByAllocation: map<Id, seq<RefundAllocationRow>>,
    paymentsByBooking: map<Id, seq<PaymentRow>>,
    refundsByPayment: map<Id, seq<RefundRow>>
  )

  /** The lookups as the reader makes them, with an empty list for a missing key. */
  function MapAccess(flat: Flat, m: Maps, b: Id): Access {
    Access(
      LastPlan(flat.plans, b),
      id => Lookup(m.installmentsByPlan, id),
      id => Lookup(m.allocationsByInstallment, id),
      id => id in m.reversed,
      id => Total(Lookup(m.refundAllocationsByAllocation, id), RefundAllocationAmount),
      Lookup(m.paymentsByBooking, b),
      id => Total(Lookup(m.refundsByPayment, id), RefundAmount),
      id => ToReceiptData(LastReceipt(flat.receipts, id)))
  }

  ghost predicate AreMapsOf(flat: Flat, m: Maps) {
    && (forall id :: Lookup(m.installmentsByPlan, id) == Group(flat.installments, InstallmentPlan, id))
    && (forall id :: Lookup(m.allocationsByInstallment, id) == Group(flat.allocations, AllocationInstallment, id))
    && (forall id :: id in m.reversed <==> HasReversal(flat.reversals, id))
    && (forall id :: Lookup(m.refundAllocationsByAllocation, id) == Group(flat.refundAllocations, RefundAllocationKey, id))
    && (forall id :: Lookup(m.paymentsByBooking, id) == Group(flat.payments, PaymentBooking, id))
    && (forall id :: Lookup(m.refundsByPayment, id) == Group(flat.refunds, RefundPaymentKey, id))
  }

  lemma SameAccess(ac: Access, ac': Access, b: BookingRow)
    requires ac.plan == ac'.plan && ac.payments == ac'.payments
    requires forall id :: ac.installmentsOf(id) == ac'.installmentsOf(id) && ac.allocationsOf(id) == ac'.allocationsOf(id)
    requires forall id :: ac.isReversed(id) == ac'.isReversed(id) && ac.refundedThrough(id) == ac'.refundedThrough(id)
    requires forall id :: ac.refundTotal(id) == ac'.refundTotal(id) && ac.receiptOf(id) == ac'.receiptOf(id)
    ensures Compose(ac, b) == Compose(ac', b)
  {
    forall rows ensures AllocationsData(ac, rows) == AllocationsData(ac', rows) {}
    forall rows ensures InstallmentsData(ac, rows) == InstallmentsData(ac', rows) {}
    assert PaymentsData(ac, ac.payments) == PaymentsData(ac', ac'.payments);
  }

  lemma MapsGiveGroups(flat: Flat, m: Maps, b: BookingRow)
    requires AreMapsOf(flat, m)
    ensures Compose(MapAccess(flat, m, b.id), b) == Compose(BatchAccess(flat, b.id), b)
  {
    hide Compose, Lookup, Group, HasReversal;
    SameAccess(MapAccess(flat, m, b.id), BatchAccess(flat, b.id), b);
  }

  /** One record a booking, looked up in maps built once. */
  method FindBookingExportRecords(bookings: seq<BookingRow>, flat: Flat) returns (records: seq<BookingData>)
    ensures |records| == |bookings|
    ensures forall k | 0 <= k < |bookings| :: records[k] == Compose(BatchAccess(flat, bookings[k].id), bookings[k])
  {
    hide Compose, Lookup, Group;
    var installmentsByPlan := GroupBy(flat.installments, InstallmentPlan);
    var allocationsByInstallment := GroupBy(flat.allocations, AllocationInstallment);
    var refundAllocationsByAllocation := GroupBy(flat.refundAllocations, RefundAllocationKey);
    var paymentsByBooking := GroupBy(flat.payments, PaymentBooking);
    var refundsByPayment := GroupBy(flat.refunds, RefundPaymentKey);
    var reversed := set k | 0 <= k < |flat.reversals| :: flat.reversals[k].allocation;
    var maps := Maps(installmentsByPlan, allocationsByInstallment, reversed,
                     refundAllocationsByAllocation, paymentsByBooking, refundsByPayment);
    assert AreMapsOf(flat, maps);
    hide AreMapsOf;
    records := [];
    for k := 0 to |bookings|
      invariant |records| == k
      invariant forall j | 0 <= j < k :: records[j] == Compose(BatchAccess(flat, bookings[j].id), bookings[j])
    {
      MapsGiveGroups(flat, maps, bookings[k]);
      records := records + [Compose(MapAccess(flat, maps, bookings[k].id), bookings[k])];
    }
  }

  // ---------------------------------------------------------------- the flat queries

  ghost function ScopedPlans(db: Tables, scope: set<Id>): set<PlanRow> {
    set p | p in db.plans && p.booking in scope && !p.status.Withdrawn?
  }

  ghost function ScopedInstallments(db: Tables, scope: set<Id>): set<InstallmentRow> {
    set i | i in db.installments && exists p :: p in ScopedPlans(db, scope) && p.id == i.plan
  }

  ghost function ScopedAllocations(db: Tables, scope: set<Id>): set<AllocationRow> {
    set a | a in db.allocations && exists i :: i in ScopedInstallments(db, scope) && i.id == a.installment
  }

  ghost predicate AllocationInScope(db: Tables, scope: set<Id>, id: Id) {
    exists a :: a in ScopedAllocations(db, scope) && a.id == id
  }

  ghost function ScopedPayments(db: Tables, scope: set<Id>): set<PaymentRow> {
    set p | p in db.payments && p.booking in scope
  }

  ghost predicate PaymentInScope(db: Tables, scope: set<Id>, id: Id) {
    exists p :: p in ScopedPayments(db, scope) && p.id == id
  }

  ghost function ScopedReversals(db: Tables, scope: set<Id>): set<ReversalRow> {
    set r | r in db.reversals && AllocationInScope(db, scope, r.allocation)
  }

  ghost function ScopedRefundAllocations(db: Tables, scope: set<Id>): set<RefundAllocationRow> {
    set r | r in db.refundAllocations && AllocationInScope(db, scope, r.allocation)
  }

  ghost function ScopedRefunds(db: Tables, scope: set<Id>): set<RefundRow> {
    set r | r in db.refunds && PaymentInScope(db, scope, r.payment)
  }

  ghost function ScopedReceipts(db: Tables, scope: set<Id>): set<ReceiptRow> {
    set r | r in db.receipts && PaymentInScope(db, scope, r.payment)
  }

  /** Each flat list answers its own query over the exported bookings. */
  ghost predicate IsFlatRead(db: Tables, scope: set<Id>, flat: Flat) {
    && IsAnswer(flat.plans, ScopedPlans(db, scope), Anyhow)
    && IsAnswer(flat.installments, ScopedInstallments(db, scope), BySequence)
    && IsAnswer(flat.allocations, ScopedAllocations(db, scope), ByAllocationTime)
    && IsAnswer(flat.reversals, ScopedReversals(db, scope), Anyhow)
    && IsAnswer(flat.refundAllocations, ScopedRefundAllocations(db, scope), Anyhow)
    && IsAnswer(flat.payments, ScopedPayments(db, scope), ByPaymentTime)
    && IsAnswer(flat.refunds, ScopedRefunds(db, scope), Anyhow)
    && IsAnswer(flat.receipts, ScopedReceipts(db, scope), Anyhow)
  }

  /** An installment of a live plan of one of the bookings. */
  ghost predicate OfBookings(db: Tables, scope: set<Id>, installment: Id) {
    exists i, p :: i in db.installments && p in db.plans && i.id == installment && i.plan == p.id
                   && p.booking in scope && p.status != Withdrawn
  }

  /** The flat queries read exactly the rows that belong to the exported bookings, through any number of tables. */
  lemma FlatReadsFollowTheBookings(db: Tables, scope: set<Id>)
    ensures forall a :: a in ScopedAllocations(db, scope) <==> a in db.allocations && OfBookings(db, scope, a.installment)
    ensures forall r :: r in ScopedReversals(db, scope) <==>
              r in db.reversals && exists a :: a in db.allocations && a.id == r.allocation && OfBookings(db, scope, a.installment)
    ensures forall r :: r in ScopedRefundAllocations(db, scope) <==>
              r in db.refundAllocations && exists a :: a in db.allocations && a.id == r.allocation && OfBookings(db, scope, a.installment)
    ensures forall r :: r in ScopedRefunds(db, scope) <==>
              r in db.refunds && exists p :: p in db.payments && p.id == r.payment && p.booking in scope
    ensures forall r :: r in ScopedReceipts(db, scope) <==>
              r in db.receipts && exists p :: p in db.payments && p.id == r.payment && p.booking in scope
  {
    forall a | a in db.allocations
      ensures (exists i :: i in ScopedInstallments(db, scope) && i.id == a.installment) <==> OfBookings(db, scope, a.installment)
    {
      if OfBookings(db, scope, a.installment) {
        var i, p :| i in db.installments && p in db.plans && i.id == a.installment && i.plan == p.id
                    && p.booking in scope && p.status != Withdrawn;
        assert p in ScopedPlans(db, scope) && i in ScopedInstallments(db, scope);
      }
    }
    hide OfBookings;
  }

  // ---------------------------------------------------------------- the nested read of one booking

  datatype Nested = Nested(
    plan: Option<PlanRow>,
    installmentsOf: Id -> seq<InstallmentRow>,
    allocationsOf: Id -> seq<AllocationRow>,
    reversalOf: Id -> Option<ReversalRow>,
    refundAllocationsOf: Id -> seq<RefundAllocationRow>,
    payments: seq<PaymentRow>,
    refundsOf: Id -> seq<RefundRow>,
    receiptOf: Id -> Option<ReceiptRow>
  )

  ghost function InstallmentsOfPlan(db: Tables, id: Id): set<InstallmentRow> {
    set i | i in db.installments && i.plan == id
  }

  ghost function AllocationsOfInstallment(db: Tables, id: Id): set<AllocationRow> {
    set a | a in db.allocations && a.installment == id
  }

  ghost function RefundsOfAllocation(db: Tables, id: Id): set<RefundAllocationRow> {
    set r | r in db.refundAllocations && r.allocation == id
  }

  ghost function PaymentsOfBooking(db: Tables, id: Id): set<PaymentRow> {
    set p | p in db.payments && p.booking == id
  }

  ghost function RefundsOfPayment(db: Tables, id: Id): set<RefundRow> {
    set r | r in db.refunds && r.payment == id
  }

  ghost predicate IsNestedRead(db: Tables, b: Id, n: Nested) {
    && (n.plan.Some? ==> n.plan.value in db.plans && n.plan.value.booking == b && !n.plan.value.status.Withdrawn?)
    && (n.plan.None? ==> forall p | p in db.plans && p.booking == b :: p.status.Withdrawn?)
    && (forall id :: IsAnswer(n.installmentsOf(id), InstallmentsOfPlan(db, id), BySequence))
    && (forall id :: IsAnswer(n.allocationsOf(id), AllocationsOfInstallment(db, id), ByAllocationTime))
    && (forall id :: n.reversalOf(id).Some? <==> exists r :: r in db.reversals && r.allocation == id)
    && (forall id :: IsAnswer(n.refundAllocationsOf(id), RefundsOfAllocation(db, id), Anyhow))
    && IsAnswer(n.payments, PaymentsOfBooking(db, b), ByPaymentTime)
    && (forall id :: IsAnswer(n.refundsOf(id), RefundsOfPayment(db, id), Anyhow))
    && (forall id :: n.receiptOf(id).Some? ==> n.receiptOf(id).value in db.receipts && n.receiptOf(id).value.payment == id)
    && (forall id :: n.receiptOf(id).None? ==> forall r | r in db.receipts :: r.payment != id)
  }

  function NestedAccess(n: Nested): Access {
    Access(
      n.plan,
      n.installmentsOf,
      n.allocationsOf,
      id => n.reversalOf(id).Some?,
      id => Total(n.refundAllocationsOf(id), RefundAllocationAmount),
      n.payments,
      id => Total(n.refundsOf(id), RefundAmount),
      id => ToReceiptData(n.receiptOf(id)))
  }

  /** Primary keys and the unique indexes, among them one non-withdrawn plan a booking. */
  ghost predicate KeysUnique(db: Tables) {
    && (forall p, q | p in db.plans && q in db.plans && p.booking == q.booking && !p.status.Withdrawn? && !q.status.Withdrawn? :: p == q)
    && (forall i, j | i in db.installments && j in db.installments && i.plan == j.plan && i.sequenceNumber == j.sequenceNumber :: i == j)
    && (forall a, b | a in db.allocations && b in db.allocations && a.id == b.id :: a == b)
    && (forall p, q | p in db.payments && q in db.payments && p.id == q.id :: p == q)
    && (forall r, s | r in db.receipts && s in db.receipts && r.payment == s.payment :: r == s)
  }

  // ---------------------------------------------------------------- refinement

  lemma SamePlan(db: Tables, scope: set<Id>, flat: Flat, b: Id, n: Nested)
    requires IsFlatRead(db, scope, flat) && IsNestedRead(db, b, n) && KeysUnique(db) && b in scope
    ensures LastPlan(flat.plans, b) == n.plan
  {
    var last := LastPlan(flat.plans, b);
    if n.plan.Some? {
      assert n.plan.value in ScopedPlans(db, scope);
      assert n.plan.value in flat.plans;
    }
    if last.Some? {
      assert last.value in ScopedPlans(db, scope);
    }
  }

  lemma SameInstallments(db: Tables, scope: set<Id>, flat: Flat, b: Id, n: Nested, plan: PlanRow)
    requires IsFlatRead(db, scope, flat) && IsNestedRead(db, b, n) && KeysUnique(db) && plan in ScopedPlans(db, scope)
    ensures Group(flat.installments, InstallmentPlan, plan.id) == n.installmentsOf(plan.id)
    ensures forall i | i in n.installmentsOf(plan.id) :: i in ScopedInstallments(db, scope)
  {
    var narrower := InstallmentsOfPlan(db, plan.id);
    forall i ensures i in narrower <==> i in ScopedInstallments(db, scope) && InstallmentPlan(i) == plan.id {}
    GroupIsAnswer(flat.installments, ScopedInstallments(db, scope), BySequence, InstallmentPlan, plan.id, narrower);
    assert IsAnswer(n.installmentsOf(plan.id), narrower, BySequence);
    OneAnswer(Group(flat.installments, InstallmentPlan, plan.id), n.installmentsOf(plan.id), BySequence);
  }

  lemma SameAllocations(db: Tables, scope: set<Id>, flat: Flat, b: Id, n: Nested, i: InstallmentRow)
    requires IsFlatRead(db, scope, flat) && IsNestedRead(db, b, n) && KeysUnique(db) && i in ScopedInstallments(db, scope)
    ensures Group(flat.allocations, AllocationInstallment, i.id) == n.allocationsOf(i.id)
    ensures forall a | a in n.allocationsOf(i.id) :: AllocationInScope(db, scope, a.id)
  {
    var narrower := AllocationsOfInstallment(db, i.id);
    forall a ensures a in narrower <==> a in ScopedAllocations(db, scope) && AllocationInstallment(a) == i.id {}
    GroupIsAnswer(flat.allocations, ScopedAllocations(db, scope), ByAllocationTime, AllocationInstallment, i.id, narrower);
    assert IsAnswer(n.allocationsOf(i.id), narrower, ByAllocationTime);
    OneAnswer(Group(flat.allocations, AllocationInstallment, i.id), n.allocationsOf(i.id), ByAllocationTime);
  }

  lemma SameReversal(db: Tables, scope: set<Id>, flat: Flat, b: Id, n: Nested, id: Id)
    requires IsFlatRead(db, scope, flat) && IsNestedRead(db, b, n) && AllocationInScope(db, scope, id)
    ensures HasReversal(flat.reversals, id) == n.reversalOf(id).Some?
  {
    var selected := ScopedReversals(db, scope);
    assert SameRows(flat.reversals, selected);
    if n.reversalOf(id).Some? {
      var r :| r in db.reversals && r.allocation == id;
      assert r in selected;
      var k :| 0 <= k < |flat.reversals| && flat.reversals[k] == r;
    }
    if HasReversal(flat.reversals, id) {
      var k :| 0 <= k < |flat.reversals| && flat.reversals[k].allocation == id;
      assert flat.reversals[k] in selected;
    }
  }

  lemma SameRefundedThrough(db: Tables, scope: set<Id>, flat: Flat, b: Id, n: Nested, id: Id)
    requires IsFlatRead(db, scope, flat) && IsNestedRead(db, b, n) && AllocationInScope(db, scope, id)
    ensures Total(Group(flat.refundAllocations, RefundAllocationKey, id), RefundAllocationAmount)
            == Total(n.refundAllocationsOf(id), RefundAllocationAmount)
  {
    var selected := ScopedRefundAllocations(db, scope);
    var narrower := RefundsOfAllocation(db, id);
    forall r ensures r in narrower <==> r in selected && RefundAllocationKey(r) == id {}
    GroupIsAnswer(flat.refundAllocations, selected, Anyhow, RefundAllocationKey, id, narrower);
    assert IsAnswer(n.refundAllocationsOf(id), narrower, Anyhow);
    SameTotal(Group(flat.refundAllocations, RefundAllocationKey, id), n.refundAllocationsOf(id), RefundAllocationAmount);
  }

  lemma SamePayments(db: Tables, scope: set<Id>, flat: Flat, b: Id, n: Nested)
    requires IsFlatRead(db, scope, flat) && IsNestedRead(db, b, n) && KeysUnique(db) && b in scope
    ensures Group(flat.payments, PaymentBooking, b) == n.payments
    ensures forall p | p in n.payments :: PaymentInScope(db, scope, p.id)
  {
    var narrower := PaymentsOfBooking(db, b);
    forall p ensures p in narrower <==> p in ScopedPayments(db, scope) && PaymentBooking(p) == b {}
    GroupIsAnswer(flat.payments, ScopedPayments(db, scope), ByPaymentTime, PaymentBooking, b, narrower);
    OneAnswer(Group(flat.payments, PaymentBooking, b), n.payments, ByPaymentTime);
  }

  lemma SameRefundTotal(db: Tables, scope: set<Id>, flat: Flat, b: Id, n: Nested, id: Id)
    requires IsFlatRead(db, scope, flat) && IsNestedRead(db, b, n) && PaymentInScope(db, scope, id)
    ensures Total(Group(flat.refunds, RefundPaymentKey, id), RefundAmount) == Total(n.refundsOf(id), RefundAmount)
  {
    var selected := ScopedRefunds(db, scope);
    var narrower := RefundsOfPayment(db, id);
    forall r ensures r in narrower <==> r in selected && RefundPaymentKey(r) == id {}
    GroupIsAnswer(flat.refunds, selected, Anyhow, RefundPaymentKey, id, narrower);
    assert IsAnswer(n.refundsOf(id), narrower, Anyhow);
    SameTotal(Group(flat.refunds, RefundPaymentKey, id), n.refundsOf(id), RefundAmount);
  }

  lemma SameReceipt(db: Tables, scope: set<Id>, flat: Flat, b: Id, n: Nested, id: Id)
    requires IsFlatRead(db, scope, flat) && IsNestedRead(db, b, n) && KeysUnique(db) && PaymentInScope(db, scope, id)
    ensures LastReceipt(flat.receipts, id) == n.receiptOf(id)
  {
    var selected := ScopedReceipts(db, scope);
    assert SameRows(flat.receipts, selected);
    if n.receiptOf(id).Some? {
      assert n.receiptOf(id).value in selected;
      assert n.receiptOf(id).value in flat.receipts;
    }
    var last := LastReceipt(flat.receipts, id);
    if last.Some? {
      assert last.value in selected;
    }
  }

  lemma SameAllocationData(db: Tables, scope: set<Id>, flat: Flat, b: Id, n: Nested, i: InstallmentRow)
    requires IsFlatRead(db, scope, flat) && IsNestedRead(db, b, n) && KeysUnique(db) && i in ScopedInstallments(db, scope)
    ensures AllocationsData(BatchAccess(flat, b), Group(flat.allocations, AllocationInstallment, i.id))
            == AllocationsData(NestedAccess(n), n.allocationsOf(i.id))
  {
    SameAllocations(db, scope, flat, b, n, i);
    hide IsFlatRead, IsNestedRead, KeysUnique;
    var rows := n.allocationsOf(i.id);
    forall k | 0 <= k < |rows|
      ensures AllocationsData(BatchAccess(flat, b), rows)[k] == AllocationsData(NestedAccess(n), rows)[k]
    {
      assert rows[k] in rows;
      SameReversal(db, scope, flat, b, n, rows[k].id);
      SameRefundedThrough(db, scope, flat, b, n, rows[k].id);
    }
  }

  lemma SameInstallmentData(db: Tables, scope: set<Id>, flat: Flat, b: Id, n: Nested, plan: PlanRow)
    requires IsFlatRead(db, scope, flat) && IsNestedRead(db, b, n) && KeysUnique(db) && plan in ScopedPlans(db, scope)
    ensures InstallmentsData(BatchAccess(flat, b), Group(flat.installments, InstallmentPlan, plan.id))
            == InstallmentsData(NestedAccess(n), n.installmentsOf(plan.id))
  {
    SameInstallments(db, scope, flat, b, n, plan);
    hide IsFlatRead, IsNestedRead, KeysUnique;
    var rows := n.installmentsOf(plan.id);
    forall k | 0 <= k < |rows|
      ensures InstallmentsData(BatchAccess(flat, b), rows)[k] == InstallmentsData(NestedAccess(n), rows)[k]
    {
      assert rows[k] in rows;
      SameAllocationData(db, scope, flat, b, n, rows[k]);
    }
  }

  lemma SamePaymentData(db: Tables, scope: set<Id>, flat: Flat, b: Id, n: Nested)
    requires IsFlatRead(db, scope, flat) && IsNestedRead(db, b, n) && KeysUnique(db) && b in scope
    ensures PaymentsData(BatchAccess(flat, b), Group(flat.payments, PaymentBooking, b)) == PaymentsData(NestedAccess(n), n.payments)
  {
    SamePayments(db, scope, flat, b, n);
    hide IsFlatRead, IsNestedRead, KeysUnique;
    var rows := n.payments;
    forall k | 0 <= k < |rows| ensures PaymentsData(BatchAccess(flat, b), rows)[k] == PaymentsData(NestedAccess(n), rows)[k] {
      assert rows[k] in rows;
      SameRefundTotal(db, scope, flat, b, n, rows[k].id);
      SameReceipt(db, scope, flat, b, n, rows[k].id);
    }
  }

  /**
   * The batch reader refines the simple one: whatever answers the flat queries and the nested queries gave,
   * each exported booking's record is the nested record, in the same order throughout.
   */
  lemma BatchReadsTheNestedRecord(db: Tables, scope: set<Id>, flat: Flat, b: BookingRow, n: Nested)
    requires IsFlatRead(db, scope, flat) && IsNestedRead(db, b.id, n) && KeysUnique(db) && b.id in scope
    ensures Compose(BatchAccess(flat, b.id), b) == Compose(NestedAccess(n), b)
  {
    SamePlan(db, scope, flat, b.id, n);
    SamePaymentData(db, scope, flat, b.id, n);
    if n.plan.Some? {
      PlanIsScoped(db, scope, b.id, n);
      SameInstallmentData(db, scope, flat, b.id, n, n.plan.value);
    }
  }

  lemma PlanIsScoped(db: Tables, scope: set<Id>, b: Id, n: Nested)
    requires IsNestedRead(db, b, n) && n.plan.Some? && b in scope
    ensures n.plan.value in ScopedPlans(db, scope)
  {
  }
}
