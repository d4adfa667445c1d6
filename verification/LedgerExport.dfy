/** The export rows of a ledger: what the fetched records hold, and why no reachable ledger is refused. */
module LedgerExport {
  import opened Wrappers
  import opened Sequences
  import opened Calculations
  import B = Books
  import P = BooksProofs
  import T = BooksTheorems
  import J = ExportJoin
  import R = ExportRows
  import S = ExportService

  /** The amounts of a payment's refunds, in table order. */
  function RefundAmounts(refunds: seq<B.Refund>, p: nat): seq<int> {
    if refunds == [] then []
    else
      var r := refunds[|refunds| - 1];
      RefundAmounts(refunds[..|refunds| - 1], p) + if r.payment == p then [r.amount] else []
  }

  function ThroughAmounts(refunds: seq<B.Refund>, a: nat): seq<int> {
    if refunds == [] then []
    else
      var r := refunds[|refunds| - 1];
      ThroughAmounts(refunds[..|refunds| - 1], a) + if r.allocation == Some(a) then [r.amount] else []
  }

  lemma {:induction false} AmountsSum(refunds: seq<B.Refund>, p: nat, a: nat)
    ensures Sum(RefundAmounts(refunds, p)) == B.RefundTotal(refunds, p)
    ensures Sum(ThroughAmounts(refunds, a)) == B.Through(refunds, a)
  {
    if refunds != [] {
      var n := |refunds| - 1;
      AmountsSum(refunds[..n], p, a);
      SumSnoc(RefundAmounts(refunds[..n], p), refunds[n].amount);
      SumSnoc(ThroughAmounts(refunds[..n], a), refunds[n].amount);
      assert RefundAmounts(refunds[..n], p) + [] == RefundAmounts(refunds[..n], p);
      assert ThroughAmounts(refunds[..n], a) + [] == ThroughAmounts(refunds[..n], a);
    }
  }

  lemma SumSnoc(xs: seq<int>, x: int)
    ensures Sum(xs + [x]) == Sum(xs) + x
  {
    assert (xs + [x])[..|xs|] == xs;
  }

  function AllocationDataOf(bk: B.Books, ids: seq<nat>): (data: seq<J.AllocationData>)
    requires forall k | 0 <= k < |ids| :: ids[k] < |bk.allocations|
    ensures |data| == |ids|
  {
    seq(|ids|, k requires 0 <= k < |ids| => J.AllocationData(ids[k], bk.allocations[ids[k]].payment, B.ViewAt(bk, ids[k])))
  }

  function InstallmentDataAt(bk: B.Books, i: nat): J.InstallmentData
    requires i < |bk.installments|
  {
    T.PickedIsInRange(B.InstallmentKeys(bk.allocations), i);
    J.InstallmentData(i, bk.installments[i].item.dueDate, bk.installments[i].item.amount,
                      AllocationDataOf(bk, Pick(B.InstallmentKeys(bk.allocations), i)))
  }

  function InstallmentsData(bk: B.Books, ids: seq<nat>): (data: seq<J.InstallmentData>)
    requires forall k | 0 <= k < |ids| :: ids[k] < |bk.installments|
    ensures |data| == |ids|
  {
    seq(|ids|, k requires 0 <= k < |ids| => InstallmentDataAt(bk, ids[k]))
  }

  /** Receipts by payment; the ledger does not look at them. */
  type Receipts = map<nat, J.ReceiptData>

  function PaymentsData(bk: B.Books, ps: seq<nat>, receipts: Receipts): (data: seq<J.PaymentData>)
    requires forall k | 0 <= k < |ps| :: ps[k] < |bk.payments|
    ensures |data| == |ps|
  {
    seq(|ps|, k requires 0 <= k < |ps| =>
      J.PaymentData(ps[k], B.PaymentAt(bk, ps[k]), if ps[k] in receipts then Some(receipts[ps[k]]) else None))
  }

  function ToPlanStatus(status: B.PlanStatus): J.PlanStatus {
    match status
    case Proposed => J.Proposed
    case Approved => J.Approved
    case Withdrawn => J.Withdrawn
  }

  /** The record a read of booking b returns, its installments in the order the read gives. */
  function BookingDataOf(
      bk: B.Books, b: nat, plan: Option<nat>, ids: seq<nat>, receipts: Receipts, reference: string, client: string): J.BookingData
    requires b < |bk.bookings| && (plan.Some? ==> plan.value < |bk.plans|)
    requires forall k | 0 <= k < |ids| :: ids[k] < |bk.installments|
  {
    J.BookingData(
      J.BookingRow(b, reference, client, bk.bookings[b].total, bk.bookings[b].currency),
      if plan.None? then None
      else Some(J.PlanData(plan.value, ToPlanStatus(bk.plans[plan.value].status), InstallmentsData(bk, ids))),
      PaymentsData(bk, T.PaymentsOf(bk, b), receipts))
  }

  /** The plan read is the booking's active one, with all its installments; none when there is none. */
  ghost predicate IsActivePlanRead(bk: B.Books, b: nat, plan: Option<nat>, ids: seq<nat>) {
    if plan.None? then ids == [] && !B.HasActivePlan(bk, b)
    else
      && plan.value < |bk.plans| && bk.plans[plan.value].booking == b && B.IsActive(bk.plans[plan.value])
      && T.AreInstallmentsOf(bk, plan.value, ids)
  }

  lemma ReadIds(bk: B.Books, b: nat, plan: Option<nat>, ids: seq<nat>)
    requires IsActivePlanRead(bk, b, plan, ids)
    ensures forall k | 0 <= k < |ids| :: ids[k] < |bk.installments|
    ensures plan.Some? ==> plan.value < |bk.plans|
    ensures T.AreActiveInstallments(bk, b, ids)
  {
    forall k | 0 <= k < |ids| ensures ids[k] < |bk.installments| {
      assert ids[k] in ids;
    }
  }

  /** The summary's credit and paid amount are the ones the conservation laws are about. */
  lemma SummaryOfLedger(
      bk: B.Books, b: nat, plan: Option<nat>, ids: seq<nat>, receipts: Receipts, reference: string, client: string)
    requires b < |bk.bookings| && IsActivePlanRead(bk, b, plan, ids)
    ensures forall k | 0 <= k < |ids| :: ids[k] < |bk.installments|
    ensures plan.Some? ==> plan.value < |bk.plans|
    ensures var s := R.BuildSummary(BookingDataOf(bk, b, plan, ids, receipts, reference, client));
            s.paid == T.Paid(bk, b) && s.credit == T.Credit(bk, b, ids)
  {
    ReadIds(bk, b, plan, ids);
    var data := BookingDataOf(bk, b, plan, ids, receipts, reference, client);
    assert R.PaymentViews(data.payments) == T.PaymentViews(bk, T.PaymentsOf(bk, b));
    forall i | 0 <= i < |bk.installments|
      ensures NetActive(R.Views(InstallmentDataAt(bk, i).allocations)) == T.AllocatedTo(bk, i)
    {
      T.PickedIsInRange(B.InstallmentKeys(bk.allocations), i);
      var picked := Pick(B.InstallmentKeys(bk.allocations), i);
      assert R.Views(InstallmentDataAt(bk, i).allocations) == T.AllocationViews(bk, picked);
    }
    assert R.NetByInstallment(InstallmentsData(bk, ids)) == T.AllocatedToColumn(bk, ids);
  }

  /** A booking with its financials set is never refused, whatever happened to its ledger. */
  lemma BookingRowIsNeverRefused(
      bk: B.Books, b: nat, plan: Option<nat>, ids: seq<nat>, receipts: Receipts, reference: string, client: string, asOf: string)
    requires P.Inv(bk) && b < |bk.bookings| && bk.bookings[b].total.Some? && IsActivePlanRead(bk, b, plan, ids)
    ensures forall k | 0 <= k < |ids| :: ids[k] < |bk.installments|
    ensures plan.Some? ==> plan.value < |bk.plans|
    ensures R.ShapeBooking(BookingDataOf(bk, b, plan, ids, receipts, reference, client), asOf).Row?
  {
    hide P.RefsOk, P.PlansOk, P.RowsOk, P.CapsOk, R.BuildSummary, InstallmentsData;
    ReadIds(bk, b, plan, ids);
    SummaryOfLedger(bk, b, plan, ids, receipts, reference, client);
    T.CreditCheck(bk, b, ids);
    P.PairedFinancials(bk, b);
    var data := BookingDataOf(bk, b, plan, ids, receipts, reference, client);
    forall k | 0 <= k < |data.payments| ensures data.payments[k].view.refundedTotal <= data.payments[k].view.amount {
      T.PaymentChecks(bk, T.PaymentsOf(bk, b)[k]);
    }
    SummaryFields(data);
  }

  lemma SummaryFields(data: J.BookingData)
    ensures var s := R.BuildSummary(data);
            && s.total == data.booking.total && s.currency == data.booking.currency
            && (s.remaining.Some? <==> s.total.Some?) && (s.overpayment.Some? <==> s.total.Some?)
  {
  }

  /** The fetched payment record agrees with the ledger's tables. */
  ghost predicate IsPaymentRead(bk: B.Books, p: nat, record: R.PaymentExport) {
    && p < |bk.payments|
    && record.amount == bk.payments[p].amount && record.status == bk.payments[p].status
    && bk.payments[p].booking < |bk.bookings| && record.currency == bk.bookings[bk.payments[p].booking].currency
    && record.refunds == RefundAmounts(bk.refunds, p)
    && (T.PickedIsInRange(B.PaymentKeys(bk.allocations), p);
        record.allocations == T.AllocationViews(bk, Pick(B.PaymentKeys(bk.allocations), p)))
  }

  lemma PaymentRowIsNeverRefused(bk: B.Books, p: nat, record: R.PaymentExport, asOf: string)
    requires P.Inv(bk) && IsPaymentRead(bk, p, record)
    ensures R.ShapePayment(record, asOf).Row?
  {
    hide P.RefsOk, P.PlansOk, P.RowsOk, P.CapsOk;
    AmountsSum(bk.refunds, p, 0);
    T.PaymentChecks(bk, p);
    T.CurrencyIsSet(bk);
    T.PickedIsInRange(B.PaymentKeys(bk.allocations), p);
    var picked := Pick(B.PaymentKeys(bk.allocations), p);
    forall k | 0 <= k < |picked| ensures record.allocations[k].paymentStatus == record.status {
      assert picked[k] in picked;
    }
    assert R.WithStatus(record.allocations, record.status) == record.allocations;
  }

  ghost predicate IsAllocationRead(bk: B.Books, a: nat, record: R.AllocationExport) {
    && a < |bk.allocations|
    && bk.allocations[a].payment < |bk.payments|
    && record.amount == bk.allocations[a].amount
    && record.paymentStatus == bk.payments[bk.allocations[a].payment].status
    && (record.reversedAt.Some? <==> bk.allocations[a].reversed)
    && record.refundAllocations == ThroughAmounts(bk.refunds, a)
    && bk.payments[bk.allocations[a].payment].booking < |bk.bookings|
    && record.currency == bk.bookings[bk.payments[bk.allocations[a].payment].booking].currency
  }

  lemma AllocationRowIsNeverRefused(bk: B.Books, a: nat, record: R.AllocationExport, asOf: string)
    requires P.Inv(bk) && IsAllocationRead(bk, a, record)
    ensures R.ShapeAllocation(record, asOf).Row?
  {
    hide P.RefsOk, P.PlansOk, P.RowsOk, P.CapsOk;
    AmountsSum(bk.refunds, 0, a);
    T.AllocationChecks(bk, a);
    T.CurrencyIsSet(bk);
    assert NetActive([B.ViewAt(bk, a)]) == NetOf(B.ViewAt(bk, a));
  }

  ghost predicate IsInstallmentRead(bk: B.Books, i: nat, record: R.InstallmentExport) {
    && i < |bk.installments|
    && bk.installments[i].plan < |bk.plans| && bk.plans[bk.installments[i].plan].status.Approved?
    && bk.plans[bk.installments[i].plan].booking < |bk.bookings|
    && record.currency == bk.bookings[bk.plans[bk.installments[i].plan].booking].currency
    && (T.PickedIsInRange(B.InstallmentKeys(bk.allocations), i);
        record.allocations == T.AllocationViews(bk, Pick(B.InstallmentKeys(bk.allocations), i)))
  }

  lemma InstallmentRowIsNeverRefused(bk: B.Books, i: nat, record: R.InstallmentExport, asOf: string)
    requires P.Inv(bk) && IsInstallmentRead(bk, i, record)
    ensures R.ShapeInstallment(record, asOf).Row?
  {
    hide P.RefsOk, P.PlansOk, P.RowsOk, P.CapsOk;
    T.InstallmentChecks(bk, i);
    T.CurrencyIsSet(bk);
  }

  ghost predicate IsRefundRead(bk: B.Books, r: nat, record: R.RefundExport) {
    && r < |bk.refunds|
    && bk.refunds[r].payment < |bk.payments| && bk.payments[bk.refunds[r].payment].booking < |bk.bookings|
    && record.currency == bk.bookings[bk.payments[bk.refunds[r].payment].booking].currency
  }

  lemma RefundRowIsNeverRefused(bk: B.Books, r: nat, record: R.RefundExport, asOf: string)
    requires P.Inv(bk) && IsRefundRead(bk, r, record)
    ensures R.ShapeRefund(record, asOf).Row?
  {
    hide P.RefsOk, P.PlansOk, P.RowsOk, P.CapsOk;
    T.CurrencyIsSet(bk);
  }

  // ---------------------------------------------------------------- whole files

  ghost predicate IsBookingRead(bk: B.Books, b: nat, plan: Option<nat>, ids: seq<nat>, receipts: Receipts, data: J.BookingData) {
    && b < |bk.bookings| && IsActivePlanRead(bk, b, plan, ids)
    && (ReadIds(bk, b, plan, ids);
        data == BookingDataOf(bk, b, plan, ids, receipts, data.booking.reference, data.booking.client))
  }

  /** The record is one a read of the ledger returns. */
  ghost predicate IsRead(bk: B.Books, record: R.Record) {
    match record
    case BookingRecord(data) => exists b: nat, plan, ids, receipts :: IsBookingRead(bk, b, plan, ids, receipts, data)
    case PaymentRecord(x) => exists p: nat :: IsPaymentRead(bk, p, x)
    case RefundRecord(x) => exists r: nat :: IsRefundRead(bk, r, x)
    case AllocationRecord(x) => exists a: nat :: IsAllocationRead(bk, a, x)
    case InstallmentRecord(x) => exists i: nat :: IsInstallmentRead(bk, i, x)
  }

  lemma RowIsNeverRefused(bk: B.Books, record: R.Record, asOf: string)
    requires P.Inv(bk) && IsRead(bk, record)
    requires record.BookingRecord? ==> record.data.booking.total.Some?
    ensures R.Shape(record, asOf).Row?
  {
    hide P.Inv, R.ShapeBooking, R.ShapePayment, R.ShapeRefund, R.ShapeAllocation, R.ShapeInstallment;
    hide IsActivePlanRead, IsPaymentRead, IsRefundRead, IsAllocationRead, IsInstallmentRead;
    match record
    case BookingRecord(data) =>
      var b: nat, plan, ids, receipts :| IsBookingRead(bk, b, plan, ids, receipts, data);
      BookingRowIsNeverRefused(bk, b, plan, ids, receipts, data.booking.reference, data.booking.client, asOf);
    case PaymentRecord(x) =>
      var p: nat :| IsPaymentRead(bk, p, x);
      PaymentRowIsNeverRefused(bk, p, x, asOf);
    case RefundRecord(x) =>
      var r: nat :| IsRefundRead(bk, r, x);
      RefundRowIsNeverRefused(bk, r, x, asOf);
    case AllocationRecord(x) =>
      var a: nat :| IsAllocationRead(bk, a, x);
      AllocationRowIsNeverRefused(bk, a, x, asOf);
    case InstallmentRecord(x) =>
      var i: nat :| IsInstallmentRead(bk, i, x);
      InstallmentRowIsNeverRefused(bk, i, x, asOf);
  }

  /**
   * Over the records of any reachable ledger an export is delivered exactly when it may read and stays within the
   * row limit: no stored amount ever refuses a file.
   */
  lemma LedgerFilesAreDelivered(
      events: seq<P.Event>, sessionRole: S.Role, request: Option<S.Request>, recheck: Option<S.Recheck>,
      stored: seq<R.Record>, granted: set<string>)
    requires P.AllWellFormed(events) && forall k | 0 <= k < |stored| :: IsRead(P.Run(P.EMPTY, events), stored[k])
    ensures S.MayDeliver(sessionRole, request, recheck, stored, granted) <==>
            && S.MayRead(sessionRole, request, recheck)
            && |S.RowsRead(sessionRole, request, recheck, stored, granted)| <= S.ROW_LIMIT
  {
    hide P.Inv, P.Run, P.WellFormed, IsRead, R.Shape, S.Selected, S.AsOf, S.Accepts, S.InRange;
    P.LedgerStaysConsistent(events);
    if S.MayRead(sessionRole, request, recheck) {
      var bk := P.Run(P.EMPTY, events);
      ReadRowsShape(bk, stored, request.value, S.ScopeOf(recheck.value.role), granted, S.AsOf(recheck));
    }
  }

  lemma ReadRowsShape(bk: B.Books, stored: seq<R.Record>, request: S.Request, scope: S.Scope, granted: set<string>, asOf: string)
    requires P.Inv(bk) && S.Accepts(request) && forall k | 0 <= k < |stored| :: IsRead(bk, stored[k])
    ensures S.AllShaped(S.Selected(stored, request, scope, granted), asOf)
  {
    hide P.Inv, IsRead, R.Shape, S.Accepts, S.InRange, S.Selected;
    var records := S.Selected(stored, request, scope, granted);
    forall k | 0 <= k < |records| ensures R.Shape(records[k], asOf).Row? {
      assert records[k] in records;
      RowIsNeverRefused(bk, records[k], asOf);
    }
  }
}
