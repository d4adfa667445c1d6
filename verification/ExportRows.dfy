/** The five row shapers: fetched records in, ordered text cells out, or a refusal naming a column. */
module ExportRows {
  import opened Wrappers
  import opened Sequences
  import opened Calculations
  import opened ExportDates
  import opened ExportCsv
  import opened ExportJoin
  import Calendar
  import Text

  datatype Dataset = BookingsSet | PaymentsSet | RefundsSet | AllocationsSet | InstallmentsSet

  function Width(dataset: Dataset): (w: nat)
    ensures w > 0
  {
    match dataset
    case BookingsSet => 12
    case PaymentsSet => 17
    case RefundsSet => 8
    case AllocationsSet => 15
    case InstallmentsSet => 9
  }

  function Columns(dataset: Dataset): (header: seq<string>)
    ensures |header| == Width(dataset)
  {
    match dataset
    case BookingsSet => [
      "bookingReference", "clientFullName", "currencyCode", "bookingTotalAmount", "derivedNetConfirmedPaid",
      "derivedRemainingBalance", "derivedOverpayment", "derivedUnappliedCredit", "derivedNextDueDate",
      "derivedNextDueOutstandingAmount", "paymentPlanStatus", "asOf"]
    case PaymentsSet => [
      "paymentId", "bookingReference", "clientFullName", "currencyCode", "amount", "status", "recordedAt", "confirmedAt",
      "reversedAt", "fullyRefundedAt", "derivedRefundedTotal", "derivedNetContribution", "derivedNetAllocated",
      "derivedUnallocated", "receiptNumber", "receiptIssuedAt", "asOf"]
    case RefundsSet => [
      "refundId", "paymentId", "bookingReference", "currencyCode", "amount", "performedAt", "derivedAllocatedPortion", "asOf"]
    case AllocationsSet => [
      "allocationId", "paymentId", "paymentStatus", "bookingReference", "currencyCode", "installmentSequenceNumber",
      "installmentIsDeposit", "installmentDueDate", "amount", "allocatedAt", "reversed", "reversedAt",
      "derivedRefundedThroughAllocation", "derivedNetActive", "asOf"]
    case InstallmentsSet => [
      "bookingReference", "currencyCode", "sequenceNumber", "isDeposit", "amount", "dueDate", "derivedNetActiveAllocation",
      "derivedOutstandingAmount", "asOf"]
  }

  /** Column i of the dataset's header has the name. */
  predicate Named(dataset: Dataset, i: nat, name: string) {
    i < Width(dataset) && Columns(dataset)[i] == name
  }

  /** Where each dataset carries its booking reference. */
  function ReferenceIndex(dataset: Dataset): (i: nat)
    ensures i < |Columns(dataset)| && Columns(dataset)[i] == "bookingReference"
  {
    match dataset
    case BookingsSet => 0
    case PaymentsSet => 1
    case RefundsSet => 2
    case AllocationsSet => 3
    case InstallmentsSet => 0
  }

  datatype Shaped = Row(cells: seq<string>) | Refused(column: string)

  datatype StatusEntry = StatusEntry(next: PaymentStatus, at: Instant)

  datatype PaymentExport = PaymentExport(
    id: string, reference: string, client: string, currency: Option<string>, amount: int, status: PaymentStatus,
    createdAt: Instant, history: seq<StatusEntry>, refunds: seq<int>, allocations: seq<AllocationView>,
    receipt: Option<ReceiptData>)

  datatype RefundExport = RefundExport(
    id: string, paymentId: string, reference: string, currency: Option<string>, amount: int, performedAt: Instant,
    refundAllocations: seq<int>)

  datatype AllocationExport = AllocationExport(
    id: string, paymentId: string, paymentStatus: PaymentStatus, reference: string, currency: Option<string>,
    sequenceNumber: int, isDeposit: bool, dueDate: Day, amount: int, allocatedAt: Instant,
    reversedAt: Option<Instant>, refundAllocations: seq<int>)

  datatype InstallmentExport = InstallmentExport(
    reference: string, currency: Option<string>, sequenceNumber: int, isDeposit: bool, amount: int, dueDate: Day,
    allocations: seq<AllocationView>)

  function StatusText(status: PaymentStatus): string {
    match status
    case Pending => "PENDING"
    case Confirmed => "CONFIRMED"
    case Rejected => "REJECTED"
    case Cancelled => "CANCELLED"
    case Failed => "FAILED"
    case Refunded => "REFUNDED"
    case Reversed => "REVERSED"
  }

  function PlanStatusText(status: PlanStatus): string {
    match status
    case Proposed => "PROPOSED"
    case Approved => "APPROVED"
    case Withdrawn => "WITHDRAWN"
  }

  function BooleanText(b: bool): string {
    if b then "true" else "false"
  }

  function IntegerText(n: int): string {
    if n < 0 then "-" + Text.Decimal(-n) else Text.Decimal(n)
  }

  function TimeText(at: Option<Instant>): string {
    if at.Some? then FormatManilaTimestamp(at.value) else ""
  }

  function FirstTime(history: seq<StatusEntry>, status: PaymentStatus): Option<Instant> {
    if history == [] then None
    else if history[0].next == status then Some(history[0].at)
    else FirstTime(history[1..], status)
  }

  // ---------------------------------------------------------------- bookings

  datatype Summary = Summary(
    reference: string, total: Option<int>, currency: Option<string>, planApproved: bool, paid: int,
    remaining: Option<int>, overpayment: Option<int>, credit: int, nextDue: Option<Day>, nextDueAmount: Option<int>)

  function Views(allocations: seq<AllocationData>): (views: seq<AllocationView>) {
    seq(|allocations|, k requires 0 <= k < |allocations| => allocations[k].view)
  }

  function PaymentViews(payments: seq<PaymentData>): (views: seq<PaymentView>) {
    seq(|payments|, k requires 0 <= k < |payments| => payments[k].view)
  }

  function NetByInstallment(installments: seq<InstallmentData>): (nets: seq<int>) {
    seq(|installments|, k requires 0 <= k < |installments| => NetActive(Views(installments[k].allocations)))
  }

  function Dues(installments: seq<InstallmentData>): (dues: seq<DueView>)
    ensures |dues| == |installments|
    ensures forall k | 0 <= k < |dues| :: InDateRange(dues[k].dueDate)
  {
    seq(|installments|, k requires 0 <= k < |installments| =>
      var i := installments[k];
      DueView(i.dueDate, Outstanding(i.amount, NetActive(Views(i.allocations)))))
  }

  function NextDueDay(dues: seq<DueView>): (day: Option<Day>)
    requires forall k | 0 <= k < |dues| :: InDateRange(dues[k].dueDate)
    ensures day.None? <==> NextDue(dues).None?
    ensures day.Some? ==> NextDue(dues) == Some(day.value)
  {
    NextDueIsEarliest(dues);
    if NextDue(dues).None? then None else Some(NextDue(dues).value)
  }

  predicate RefundsExceed(payments: seq<PaymentData>) {
    exists k :: 0 <= k < |payments| && payments[k].view.refundedTotal > payments[k].view.amount
  }

  /** The booking summary, composed from the formulas alone. */
  function BuildSummary(data: BookingData): Summary {
    var installments := if data.plan.Some? then data.plan.value.installments else [];
    var paid := NetConfirmedPaid(PaymentViews(data.payments));
    var total := data.booking.total;
    Summary(
      data.booking.reference, total, data.booking.currency,
      data.plan.Some? && data.plan.value.status.Approved?,
      paid,
      if total.Some? then Some(RemainingBalance(total.value, paid)) else None,
      if total.Some? then Some(Overpayment(total.value, paid)) else None,
      UnappliedCredit(paid, NetByInstallment(installments)),
      NextDueDay(Dues(installments)),
      NextDueAmount(Dues(installments)))
  }

  function ShapeBooking(data: BookingData, asOf: string): (shaped: Shaped)
    ensures shaped.Row? ==> |shaped.cells| == 12
  {
    if RefundsExceed(data.payments) then Refused("bookings.derivedNetConfirmedPaid")
    else
      var s := BuildSummary(data);
      if s.total.None? then Refused("bookings.bookingTotalAmount")
      else if s.currency.None? then Refused("bookings.currencyCode")
      else if s.credit < 0 then Refused("bookings.derivedUnappliedCredit")
      else
        Row([
          s.reference, data.booking.client, s.currency.value,
          FormatAmount(s.total.value), FormatAmount(s.paid), FormatAmount(s.remaining.value), FormatAmount(s.overpayment.value),
          FormatAmount(s.credit),
          if s.planApproved && s.nextDue.Some? then FormatDateOnly(s.nextDue.value) else "",
          if s.planApproved && s.nextDueAmount.Some? then FormatAmount(s.nextDueAmount.value) else "",
          if data.plan.Some? then PlanStatusText(data.plan.value.status) else "",
          asOf])
  }

  // ---------------------------------------------------------------- payments, refunds, allocations, installments

  function WithStatus(allocations: seq<AllocationView>, status: PaymentStatus): (views: seq<AllocationView>) {
    seq(|allocations|, k requires 0 <= k < |allocations| => allocations[k].(paymentStatus := status))
  }

  function ShapePayment(p: PaymentExport, asOf: string): (shaped: Shaped)
    ensures shaped.Row? ==> |shaped.cells| == 17
  {
    var refunded := Sum(p.refunds);
    var contribution := NetContribution(PaymentView(p.status, p.amount, refunded));
    var netAllocated := NetActive(WithStatus(p.allocations, p.status));
    if refunded > p.amount then Refused("payments.derivedRefundedTotal")
    else if p.currency.None? then Refused("payments.currencyCode")
    else if netAllocated < 0 then Refused("payments.derivedNetAllocated")
    else if contribution - netAllocated < 0 then Refused("payments.derivedUnallocated")
    else
      Row([
        p.id, p.reference, p.client, p.currency.value, FormatAmount(p.amount), StatusText(p.status),
        FormatManilaTimestamp(p.createdAt), TimeText(FirstTime(p.history, Confirmed)),
        TimeText(FirstTime(p.history, Reversed)), TimeText(FirstTime(p.history, Refunded)),
        FormatAmount(refunded), FormatAmount(contribution), FormatAmount(netAllocated), FormatAmount(contribution - netAllocated),
        if p.receipt.Some? then p.receipt.value.number else "",
        if p.receipt.Some? then FormatManilaTimestamp(p.receipt.value.issuedAt) else "",
        asOf])
  }

  function ShapeRefund(r: RefundExport, asOf: string): (shaped: Shaped)
    ensures shaped.Row? ==> |shaped.cells| == 8
  {
    if r.currency.None? then Refused("refunds.currencyCode")
    else
      Row([r.id, r.paymentId, r.reference, r.currency.value, FormatAmount(r.amount), FormatManilaTimestamp(r.performedAt),
           FormatAmount(Sum(r.refundAllocations)), asOf])
  }

  function ShapeAllocation(a: AllocationExport, asOf: string): (shaped: Shaped)
    ensures shaped.Row? ==> |shaped.cells| == 15
  {
    var through := Sum(a.refundAllocations);
    var net := NetOf(AllocationView(a.amount, a.paymentStatus, a.reversedAt.Some?, through));
    if a.currency.None? then Refused("allocations.currencyCode")
    else if net < 0 then Refused("allocations.derivedNetActive")
    else
      Row([
        a.id, a.paymentId, StatusText(a.paymentStatus), a.reference, a.currency.value, IntegerText(a.sequenceNumber),
        BooleanText(a.isDeposit), FormatDateOnly(a.dueDate), FormatAmount(a.amount), TimeText(Some(a.allocatedAt)),
        BooleanText(a.reversedAt.Some?), TimeText(a.reversedAt), FormatAmount(through), FormatAmount(net), asOf])
  }

  function ShapeInstallment(i: InstallmentExport, asOf: string): (shaped: Shaped)
    ensures shaped.Row? ==> |shaped.cells| == 9
  {
    var net := NetActive(i.allocations);
    if i.currency.None? then Refused("installments.currencyCode")
    else if net < 0 then Refused("installments.derivedNetActiveAllocation")
    else
      Row([
        i.reference, i.currency.value, IntegerText(i.sequenceNumber), BooleanText(i.isDeposit), FormatAmount(i.amount),
        FormatDateOnly(i.dueDate), FormatAmount(net), FormatAmount(Outstanding(i.amount, net)), asOf])
  }

  datatype Record =
    | BookingRecord(data: BookingData)
    | PaymentRecord(payment: PaymentExport)
    | RefundRecord(refund: RefundExport)
    | AllocationRecord(allocation: AllocationExport)
    | InstallmentRecord(installment: InstallmentExport)

  function DatasetOf(r: Record): Dataset {
    match r
    case BookingRecord(_) => BookingsSet
    case PaymentRecord(_) => PaymentsSet
    case RefundRecord(_) => RefundsSet
    case AllocationRecord(_) => AllocationsSet
    case InstallmentRecord(_) => InstallmentsSet
  }

  function Shape(r: Record, asOf: string): Shaped {
    match r
    case BookingRecord(data) => ShapeBooking(data, asOf)
    case PaymentRecord(p) => ShapePayment(p, asOf)
    case RefundRecord(x) => ShapeRefund(x, asOf)
    case AllocationRecord(a) => ShapeAllocation(a, asOf)
    case InstallmentRecord(i) => ShapeInstallment(i, asOf)
  }

  // ---------------------------------------------------------------- what each column shows

  function CellAt(cells: seq<string>, i: nat): string {
    if i < |cells| then cells[i] else ""
  }

  function TextOf(value: Option<string>): string {
    if value.Some? then value.value else ""
  }

  function DayText(day: Option<Day>): string {
    if day.Some? then FormatDateOnly(day.value) else ""
  }

  /** What an allocation still holds of its payment: nothing once reversed, or while the payment does not count. */
  function LiveAmount(a: AllocationExport): int {
    if a.reversedAt == None && a.paymentStatus in {Confirmed, Refunded} then a.amount - Sum(a.refundAllocations) else 0
  }

  function InstallmentsOf(data: BookingData): seq<InstallmentData> {
    if data.plan.Some? then data.plan.value.installments else []
  }

  /** Only an approved plan has due dates. */
  function ApprovedDues(data: BookingData): (dues: seq<DueView>)
    ensures forall k | 0 <= k < |dues| :: InDateRange(dues[k].dueDate)
  {
    if data.plan.Some? && data.plan.value.status == Approved then Dues(data.plan.value.installments) else []
  }

  /** The first history entry of a status gives its time; without one there is none. */
  lemma {:induction false} FirstTimeIsFirst(history: seq<StatusEntry>, status: PaymentStatus)
    ensures FirstTime(history, status) == None <==> forall i | 0 <= i < |history| :: history[i].next != status
    ensures forall t | FirstTime(history, status) == Some(t) ::
              exists i :: 0 <= i < |history| && history[i] == StatusEntry(status, t) && forall j | 0 <= j < i :: history[j].next != status
  {
    if history != [] && history[0].next != status {
      FirstTimeIsFirst(history[1..], status);
      forall t | FirstTime(history, status) == Some(t)
        ensures exists i :: 0 <= i < |history| && history[i] == StatusEntry(status, t)
                            && forall j | 0 <= j < i :: history[j].next != status
      {
        var i :| 0 <= i < |history| - 1 && history[1..][i] == StatusEntry(status, t)
                 && forall j | 0 <= j < i :: history[1..][j].next != status;
        assert history[i + 1] == StatusEntry(status, t);
        forall j | 0 <= j < i + 1 ensures history[j].next != status {
          assert j > 0 ==> history[j] == history[1..][j - 1];
        }
      }
    }
  }

  function NumberText(n: int): string {
    if n >= 0 then Text.Decimal(n) else "-" + Text.Decimal(-n)
  }

  /** The stored names of the statuses. */
  lemma StatusNames()
    ensures StatusText(Pending) == "PENDING" && StatusText(Confirmed) == "CONFIRMED"
    ensures StatusText(Reversed) == "REVERSED" && StatusText(Refunded) == "REFUNDED"
    ensures PlanStatusText(Proposed) == "PROPOSED" && PlanStatusText(Approved) == "APPROVED" && PlanStatusText(Withdrawn) == "WITHDRAWN"
  {
  }

  predicate PaymentNames() {
    && Named(PaymentsSet, 0, "paymentId")
    && Named(PaymentsSet, 1, "bookingReference")
    && Named(PaymentsSet, 2, "clientFullName")
    && Named(PaymentsSet, 3, "currencyCode")
    && Named(PaymentsSet, 4, "amount")
    && Named(PaymentsSet, 5, "status")
    && Named(PaymentsSet, 6, "recordedAt")
    && Named(PaymentsSet, 7, "confirmedAt")
    && Named(PaymentsSet, 8, "reversedAt")
    && Named(PaymentsSet, 9, "fullyRefundedAt")
    && Named(PaymentsSet, 10, "derivedRefundedTotal")
    && Named(PaymentsSet, 11, "derivedNetContribution")
    && Named(PaymentsSet, 12, "derivedNetAllocated")
    && Named(PaymentsSet, 13, "derivedUnallocated")
    && Named(PaymentsSet, 14, "receiptNumber")
    && Named(PaymentsSet, 15, "receiptIssuedAt")
    && Named(PaymentsSet, 16, "asOf")
  }

  lemma PaymentColumnNames()
    ensures PaymentNames()
  {
  }

  predicate PaymentTerms(cells: seq<string>, p: PaymentExport, asOf: string) {
    && CellAt(cells, 0) == p.id
    && CellAt(cells, 1) == p.reference
    && CellAt(cells, 2) == p.client
    && CellAt(cells, 3) == TextOf(p.currency)
    && CellAt(cells, 4) == FormatAmount(p.amount)
    && CellAt(cells, 5) == StatusText(p.status)
  }

  predicate PaymentTimes(cells: seq<string>, p: PaymentExport, asOf: string) {
    && CellAt(cells, 6) == TimeText(Some(p.createdAt))
    && CellAt(cells, 7) == TimeText(FirstTime(p.history, Confirmed))
    && CellAt(cells, 8) == TimeText(FirstTime(p.history, Reversed))
    && CellAt(cells, 9) == TimeText(FirstTime(p.history, Refunded))
    && CellAt(cells, 10) == FormatAmount(Sum(p.refunds))
    && CellAt(cells, 14) == (if p.receipt.Some? then p.receipt.value.number else "")
    && CellAt(cells, 15) == TimeText(if p.receipt.Some? then Some(p.receipt.value.issuedAt) else None)
    && CellAt(cells, 16) == asOf
  }

  predicate PaymentValues(cells: seq<string>, p: PaymentExport, asOf: string) {
    PaymentTerms(cells, p, asOf) && PaymentTimes(cells, p, asOf)
  }

  lemma PaymentTermsShown(p: PaymentExport, asOf: string)
    requires ShapePayment(p, asOf).Row?
    ensures PaymentTerms(ShapePayment(p, asOf).cells, p, asOf)
  {
    hide FormatAmount, FormatManilaTimestamp, FirstTime, StatusText, NetActive, NetContribution, WithStatus, Sum;
  }

  lemma PaymentTimesShown(p: PaymentExport, asOf: string)
    requires ShapePayment(p, asOf).Row?
    ensures PaymentTimes(ShapePayment(p, asOf).cells, p, asOf)
  {
    hide FormatAmount, FormatManilaTimestamp, FirstTime, StatusText, NetActive, NetContribution, WithStatus, Sum;
  }

  lemma PaymentCurrency(p: PaymentExport, asOf: string)
    requires ShapePayment(p, asOf).Row?
    ensures p.currency.Some?
  {
    hide FormatAmount, FormatManilaTimestamp, FirstTime, StatusText, NetActive, NetContribution, WithStatus, Sum;
  }

  /** A payment row shows the payment, its times and its receipt under their columns' names. */
  lemma PaymentColumns(p: PaymentExport, asOf: string)
    requires ShapePayment(p, asOf).Row?
    ensures PaymentNames() && p.currency.Some?
    ensures PaymentValues(ShapePayment(p, asOf).cells, p, asOf)
  {
    hide PaymentNames;
    PaymentColumnNames();
    PaymentCurrency(p, asOf);
    PaymentTermsShown(p, asOf);
    PaymentTimesShown(p, asOf);
    hide ShapePayment, PaymentTerms, PaymentTimes;
  }

  predicate RefundNames() {
    && Named(RefundsSet, 0, "refundId")
    && Named(RefundsSet, 1, "paymentId")
    && Named(RefundsSet, 2, "bookingReference")
    && Named(RefundsSet, 3, "currencyCode")
    && Named(RefundsSet, 4, "amount")
    && Named(RefundsSet, 5, "performedAt")
    && Named(RefundsSet, 6, "derivedAllocatedPortion")
    && Named(RefundsSet, 7, "asOf")
  }

  lemma RefundColumnNames()
    ensures RefundNames()
  {
  }

  predicate RefundValues(cells: seq<string>, r: RefundExport, asOf: string) {
    && CellAt(cells, 0) == r.id
    && CellAt(cells, 1) == r.paymentId
    && CellAt(cells, 2) == r.reference
    && CellAt(cells, 3) == TextOf(r.currency)
    && CellAt(cells, 4) == FormatAmount(r.amount)
    && CellAt(cells, 5) == TimeText(Some(r.performedAt))
    && CellAt(cells, 6) == FormatAmount(Sum(r.refundAllocations))
    && CellAt(cells, 7) == asOf
  }

  /** A refund row shows the refund and what of it was linked to allocations. */
  lemma RefundColumns(r: RefundExport, asOf: string)
    requires ShapeRefund(r, asOf).Row?
    ensures RefundNames() && r.currency.Some?
    ensures RefundValues(ShapeRefund(r, asOf).cells, r, asOf)
  {
    hide RefundNames;
    RefundColumnNames();
    hide FormatAmount, FormatManilaTimestamp, Sum;
  }

  predicate AllocationNames() {
    && Named(AllocationsSet, 0, "allocationId")
    && Named(AllocationsSet, 1, "paymentId")
    && Named(AllocationsSet, 2, "paymentStatus")
    && Named(AllocationsSet, 3, "bookingReference")
    && Named(AllocationsSet, 4, "currencyCode")
    && Named(AllocationsSet, 5, "installmentSequenceNumber")
    && Named(AllocationsSet, 6, "installmentIsDeposit")
    && Named(AllocationsSet, 7, "installmentDueDate")
    && Named(AllocationsSet, 8, "amount")
    && Named(AllocationsSet, 9, "allocatedAt")
    && Named(AllocationsSet, 10, "reversed")
    && Named(AllocationsSet, 11, "reversedAt")
    && Named(AllocationsSet, 12, "derivedRefundedThroughAllocation")
    && Named(AllocationsSet, 13, "derivedNetActive")
    && Named(AllocationsSet, 14, "asOf")
  }

  lemma AllocationColumnNames()
    ensures AllocationNames()
  {
  }

  predicate AllocationTerms(cells: seq<string>, a: AllocationExport, asOf: string) {
    && CellAt(cells, 0) == a.id
    && CellAt(cells, 1) == a.paymentId
    && CellAt(cells, 2) == StatusText(a.paymentStatus)
    && CellAt(cells, 3) == a.reference
    && CellAt(cells, 4) == TextOf(a.currency)
    && CellAt(cells, 5) == NumberText(a.sequenceNumber)
    && CellAt(cells, 6) == (if a.isDeposit then "true" else "false")
    && CellAt(cells, 7) == DayText(Some(a.dueDate))
  }

  predicate AllocationAmounts(cells: seq<string>, a: AllocationExport, asOf: string) {
    && CellAt(cells, 8) == FormatAmount(a.amount)
    && CellAt(cells, 9) == TimeText(Some(a.allocatedAt))
    && CellAt(cells, 10) == (if a.reversedAt.Some? then "true" else "false")
    && CellAt(cells, 11) == TimeText(a.reversedAt)
    && CellAt(cells, 12) == FormatAmount(Sum(a.refundAllocations))
    && CellAt(cells, 13) == FormatAmount(LiveAmount(a))
    && CellAt(cells, 14) == asOf
  }

  predicate AllocationValues(cells: seq<string>, a: AllocationExport, asOf: string) {
    AllocationTerms(cells, a, asOf) && AllocationAmounts(cells, a, asOf)
  }

  lemma AllocationTermsShown(a: AllocationExport, asOf: string)
    requires ShapeAllocation(a, asOf).Row?
    ensures AllocationTerms(ShapeAllocation(a, asOf).cells, a, asOf)
  {
    hide FormatAmount, FormatDateOnly, FormatManilaTimestamp, StatusText, Sum;
  }

  lemma AllocationAmountsShown(a: AllocationExport, asOf: string)
    requires ShapeAllocation(a, asOf).Row?
    ensures AllocationAmounts(ShapeAllocation(a, asOf).cells, a, asOf)
  {
    hide FormatAmount, FormatDateOnly, FormatManilaTimestamp, StatusText, Sum;
  }

  lemma AllocationCurrency(a: AllocationExport, asOf: string)
    requires ShapeAllocation(a, asOf).Row?
    ensures a.currency.Some?
  {
    hide FormatAmount, FormatDateOnly, FormatManilaTimestamp, StatusText, Sum;
  }

  /** An allocation row shows the allocation and what it still holds. */
  lemma AllocationColumns(a: AllocationExport, asOf: string)
    requires ShapeAllocation(a, asOf).Row?
    ensures AllocationNames() && a.currency.Some?
    ensures AllocationValues(ShapeAllocation(a, asOf).cells, a, asOf)
  {
    hide AllocationNames;
    AllocationColumnNames();
    AllocationCurrency(a, asOf);
    AllocationTermsShown(a, asOf);
    AllocationAmountsShown(a, asOf);
    hide ShapeAllocation, AllocationTerms, AllocationAmounts;
  }

  predicate InstallmentNames() {
    && Named(InstallmentsSet, 0, "bookingReference")
    && Named(InstallmentsSet, 1, "currencyCode")
    && Named(InstallmentsSet, 2, "sequenceNumber")
    && Named(InstallmentsSet, 3, "isDeposit")
    && Named(InstallmentsSet, 4, "amount")
    && Named(InstallmentsSet, 5, "dueDate")
    && Named(InstallmentsSet, 6, "derivedNetActiveAllocation")
    && Named(InstallmentsSet, 7, "derivedOutstandingAmount")
    && Named(InstallmentsSet, 8, "asOf")
  }

  lemma InstallmentColumnNames()
    ensures InstallmentNames()
  {
  }

  predicate InstallmentValues(cells: seq<string>, i: InstallmentExport, asOf: string) {
    && CellAt(cells, 0) == i.reference
    && CellAt(cells, 1) == TextOf(i.currency)
    && CellAt(cells, 2) == NumberText(i.sequenceNumber)
    && CellAt(cells, 3) == (if i.isDeposit then "true" else "false")
    && CellAt(cells, 4) == FormatAmount(i.amount)
    && CellAt(cells, 5) == DayText(Some(i.dueDate))
    && CellAt(cells, 6) == FormatAmount(NetActive(i.allocations))
    && CellAt(cells, 7) == FormatAmount(if NetActive(i.allocations) < i.amount then i.amount - NetActive(i.allocations) else 0)
    && CellAt(cells, 8) == asOf
  }

  /** An installment row shows the installment and what is allocated to it. */
  lemma InstallmentColumns(i: InstallmentExport, asOf: string)
    requires ShapeInstallment(i, asOf).Row?
    ensures InstallmentNames() && i.currency.Some?
    ensures InstallmentValues(ShapeInstallment(i, asOf).cells, i, asOf)
  {
    hide InstallmentNames;
    InstallmentColumnNames();
    hide FormatAmount, FormatDateOnly, NetActive;
  }

  predicate BookingNames() {
    && Named(BookingsSet, 0, "bookingReference")
    && Named(BookingsSet, 1, "clientFullName")
    && Named(BookingsSet, 2, "currencyCode")
    && Named(BookingsSet, 3, "bookingTotalAmount")
    && Named(BookingsSet, 4, "derivedNetConfirmedPaid")
    && Named(BookingsSet, 5, "derivedRemainingBalance")
    && Named(BookingsSet, 6, "derivedOverpayment")
    && Named(BookingsSet, 7, "derivedUnappliedCredit")
    && Named(BookingsSet, 8, "derivedNextDueDate")
    && Named(BookingsSet, 9, "derivedNextDueOutstandingAmount")
    && Named(BookingsSet, 10, "paymentPlanStatus")
    && Named(BookingsSet, 11, "asOf")
  }

  lemma BookingColumnNames()
    ensures BookingNames()
  {
  }

  predicate BookingValues(cells: seq<string>, data: BookingData, asOf: string) {
    && CellAt(cells, 0) == data.booking.reference
    && CellAt(cells, 1) == data.booking.client
    && CellAt(cells, 2) == TextOf(data.booking.currency)
    && CellAt(cells, 4) == FormatAmount(NetConfirmedPaid(PaymentViews(data.payments)))
    && CellAt(cells, 7) == FormatAmount(NetConfirmedPaid(PaymentViews(data.payments)) - Sum(NetByInstallment(InstallmentsOf(data))))
    && CellAt(cells, 8) == DayText(NextDueDay(ApprovedDues(data)))
    && CellAt(cells, 9) == (if NextDueAmount(ApprovedDues(data)).Some? then FormatAmount(NextDueAmount(ApprovedDues(data)).value) else "")
    && CellAt(cells, 10) == (if data.plan.Some? then PlanStatusText(data.plan.value.status) else "")
    && CellAt(cells, 11) == asOf
  }

  /** A booking row shows the booking, its credit and what is due next of an approved plan. */
  lemma BookingColumns(data: BookingData, asOf: string)
    requires ShapeBooking(data, asOf).Row?
    ensures BookingNames() && data.booking.currency.Some?
    ensures BookingValues(ShapeBooking(data, asOf).cells, data, asOf)
  {
    hide BookingNames;
    BookingColumnNames();
    hide FormatAmount, FormatDateOnly, RemainingBalance, Overpayment, PlanStatusText, RefundsExceed;
    hide NetConfirmedPaid, NextDueDay, Dues, NetByInstallment, Sum;
  }

  // ---------------------------------------------------------------- when a row is refused

  /** A booking is shown exactly when no refund goes too far, its financials are set and its credit is not negative. */
  lemma BookingRefusals(data: BookingData, asOf: string)
    ensures var exceeds := exists k :: 0 <= k < |data.payments| && data.payments[k].view.refundedTotal > data.payments[k].view.amount;
            var credit := NetConfirmedPaid(PaymentViews(data.payments)) - Sum(NetByInstallment(InstallmentsOf(data)));
            match ShapeBooking(data, asOf)
            case Row(_) => !exceeds && data.booking.total.Some? && data.booking.currency.Some? && credit >= 0
            case Refused(column) =>
              || (column == "bookings.derivedNetConfirmedPaid" && exceeds)
              || (column == "bookings.bookingTotalAmount" && data.booking.total.None?)
              || (column == "bookings.currencyCode" && data.booking.currency.None?)
              || (column == "bookings.derivedUnappliedCredit" && credit < 0)
  {
    hide FormatAmount, FormatDateOnly, RemainingBalance, Overpayment, PlanStatusText;
    hide NetConfirmedPaid, NextDueDay, Dues, NetByInstallment, Sum;
  }

  /** A payment is shown exactly when its refunds fit its amount, and its live allocations what it contributes. */
  lemma PaymentRefusals(p: PaymentExport, asOf: string)
    ensures var refunded, kept := Sum(p.refunds), NetActive(WithStatus(p.allocations, p.status));
            var contributed := if p.status in {Confirmed, Refunded} then p.amount - refunded else 0;
            match ShapePayment(p, asOf)
            case Row(_) => refunded <= p.amount && p.currency.Some? && 0 <= kept <= contributed
            case Refused(column) =>
              || (column == "payments.derivedRefundedTotal" && refunded > p.amount)
              || (column == "payments.currencyCode" && p.currency.None?)
              || (column == "payments.derivedNetAllocated" && kept < 0)
              || (column == "payments.derivedUnallocated" && refunded <= p.amount && kept > contributed)
  {
    hide FormatAmount, FormatManilaTimestamp, FirstTime, StatusText, NetActive, WithStatus, Sum;
  }

  lemma RefundRefusals(r: RefundExport, asOf: string)
    ensures ShapeRefund(r, asOf).Row? <==> r.currency.Some?
    ensures ShapeRefund(r, asOf).Refused? ==> ShapeRefund(r, asOf).column == "refunds.currencyCode"
  {
    hide FormatAmount, FormatManilaTimestamp, Sum;
  }

  /** An allocation is shown exactly when no more was refunded through it than it holds. */
  lemma AllocationRefusals(a: AllocationExport, asOf: string)
    ensures match ShapeAllocation(a, asOf)
            case Row(_) => a.currency.Some? && LiveAmount(a) >= 0
            case Refused(column) =>
              || (column == "allocations.currencyCode" && a.currency.None?)
              || (column == "allocations.derivedNetActive" && LiveAmount(a) < 0)
  {
    hide FormatAmount, FormatDateOnly, FormatManilaTimestamp, IntegerText, BooleanText, StatusText, Sum;
  }

  lemma InstallmentRefusals(i: InstallmentExport, asOf: string)
    ensures match ShapeInstallment(i, asOf)
            case Row(_) => i.currency.Some? && NetActive(i.allocations) >= 0
            case Refused(column) =>
              || (column == "installments.currencyCode" && i.currency.None?)
              || (column == "installments.derivedNetActiveAllocation" && NetActive(i.allocations) < 0)
  {
    hide FormatAmount, FormatDateOnly, IntegerText, BooleanText, NetActive, Outstanding;
  }

  /** Every shaped row is exactly as wide as its dataset's header. */
  lemma ShapedRowsFitHeader(r: Record, asOf: string)
    requires Shape(r, asOf).Row?
    ensures |Shape(r, asOf).cells| == |Columns(DatasetOf(r))|
  {
    hide ShapeBooking, ShapePayment, ShapeRefund, ShapeAllocation, ShapeInstallment;
  }

  // ---------------------------------------------------------------- what the printed rows say

  lemma BookingHeader()
    ensures && Named(BookingsSet, 0, "bookingReference") && Named(BookingsSet, 1, "clientFullName")
            && Named(BookingsSet, 2, "currencyCode") && Named(BookingsSet, 3, "bookingTotalAmount")
            && Named(BookingsSet, 4, "derivedNetConfirmedPaid") && Named(BookingsSet, 5, "derivedRemainingBalance")
            && Named(BookingsSet, 6, "derivedOverpayment")
  {
  }

  lemma BookingCells(data: BookingData, asOf: string)
    requires ShapeBooking(data, asOf).Row?
    ensures var cells := ShapeBooking(data, asOf).cells;
            var s := BuildSummary(data);
            && cells[0] == data.booking.reference && cells[1] == data.booking.client
            && Some(cells[2]) == data.booking.currency && s.total == data.booking.total
            && s.total.Some? && cells[3] == FormatAmount(s.total.value) && cells[4] == FormatAmount(s.paid)
            && cells[5] == FormatAmount(RemainingBalance(s.total.value, s.paid))
            && cells[6] == FormatAmount(Overpayment(s.total.value, s.paid))
  {
    hide FormatAmount, FormatDateOnly, RemainingBalance, Overpayment, PlanStatusText, RefundsExceed;
    hide NetConfirmedPaid, NextDueDay, NextDueAmount, Dues, NetByInstallment, UnappliedCredit;
  }

  /** The cells name the booking and its total; total less paid is remaining less overpaid, and one of those is zero. */
  predicate BookingBalances(cells: seq<string>, booking: BookingRow)
    requires |cells| == 12
  {
    var total, paid, remaining, over := ParseAmount(cells[3]), ParseAmount(cells[4]), ParseAmount(cells[5]), ParseAmount(cells[6]);
    && cells[0] == booking.reference && cells[1] == booking.client && Some(cells[2]) == booking.currency
    && total == booking.total && total.Some? && paid.Some? && remaining.Some? && over.Some?
    && total.value - paid.value == remaining.value - over.value
    && (remaining == Some(0) || over == Some(0))
  }

  /** Read back from the cells, a booking row balances. */
  lemma BookingRowBalances(data: BookingData, asOf: string)
    requires ShapeBooking(data, asOf).Row?
    ensures && Named(BookingsSet, 0, "bookingReference") && Named(BookingsSet, 1, "clientFullName")
            && Named(BookingsSet, 2, "currencyCode") && Named(BookingsSet, 3, "bookingTotalAmount")
            && Named(BookingsSet, 4, "derivedNetConfirmedPaid") && Named(BookingsSet, 5, "derivedRemainingBalance")
            && Named(BookingsSet, 6, "derivedOverpayment")
    ensures BookingBalances(ShapeBooking(data, asOf).cells, data.booking)
  {
    hide FormatAmount, ParseAmount, ShapeBooking, BuildSummary, Named, RemainingBalance, Overpayment;
    BookingHeader();
    BookingCells(data, asOf);
    var total, paid := BuildSummary(data).total.value, BuildSummary(data).paid;
    AmountCellIsExact(total);
    AmountCellIsExact(paid);
    AmountCellIsExact(RemainingBalance(total, paid));
    AmountCellIsExact(Overpayment(total, paid));
    BalanceSplits(total, paid);
  }

  lemma PaymentCells(p: PaymentExport, asOf: string)
    requires ShapePayment(p, asOf).Row?
    ensures var refunded := Sum(p.refunds);
            var contribution := NetContribution(PaymentView(p.status, p.amount, refunded));
            var covered := NetActive(WithStatus(p.allocations, p.status));
            var cells := ShapePayment(p, asOf).cells;
            && cells[4] == FormatAmount(p.amount) && cells[10] == FormatAmount(refunded)
            && cells[11] == FormatAmount(contribution) && cells[12] == FormatAmount(covered)
            && cells[13] == FormatAmount(contribution - covered)
            && covered >= 0 && contribution >= covered && refunded <= p.amount
  {
    hide FormatAmount, FormatManilaTimestamp, NetActive, Sum, FirstTime, TimeText;
  }

  /** A contributing payment's amount is refunded, allocated or unallocated, each part not negative; no other contributes. */
  predicate PaymentBalances(cells: seq<string>, p: PaymentExport)
    requires |cells| == 17
  {
    var amount, refunded, contribution := ParseAmount(cells[4]), ParseAmount(cells[10]), ParseAmount(cells[11]);
    var allocatedPart, unallocated := ParseAmount(cells[12]), ParseAmount(cells[13]);
    && amount == Some(p.amount) && refunded == Some(Sum(p.refunds))
    && contribution.Some? && allocatedPart.Some? && unallocated.Some?
    && contribution.value == allocatedPart.value + unallocated.value
    && allocatedPart.value >= 0 && unallocated.value >= 0
    && if Contributes(p.status) then amount.value == refunded.value + contribution.value else contribution == Some(0)
  }

  lemma PaymentHeader()
    ensures && Named(PaymentsSet, 4, "amount") && Named(PaymentsSet, 10, "derivedRefundedTotal")
            && Named(PaymentsSet, 11, "derivedNetContribution") && Named(PaymentsSet, 12, "derivedNetAllocated")
            && Named(PaymentsSet, 13, "derivedUnallocated")
  {
  }

  /** Read back from the cells, a payment row balances. */
  lemma PaymentRowBalances(p: PaymentExport, asOf: string)
    requires ShapePayment(p, asOf).Row?
    ensures && Named(PaymentsSet, 4, "amount") && Named(PaymentsSet, 10, "derivedRefundedTotal")
            && Named(PaymentsSet, 11, "derivedNetContribution") && Named(PaymentsSet, 12, "derivedNetAllocated")
            && Named(PaymentsSet, 13, "derivedUnallocated")
    ensures PaymentBalances(ShapePayment(p, asOf).cells, p)
  {
    hide FormatAmount, ParseAmount, ShapePayment, NetActive, Sum, Named, WithStatus;
    PaymentHeader();
    PaymentCells(p, asOf);
    var refunded := Sum(p.refunds);
    var contribution := NetContribution(PaymentView(p.status, p.amount, refunded));
    var covered := NetActive(WithStatus(p.allocations, p.status));
    AmountCellIsExact(p.amount);
    AmountCellIsExact(refunded);
    AmountCellIsExact(contribution);
    AmountCellIsExact(covered);
    AmountCellIsExact(contribution - covered);
  }

  lemma InstallmentHeader()
    ensures && Named(InstallmentsSet, 4, "amount") && Named(InstallmentsSet, 6, "derivedNetActiveAllocation")
            && Named(InstallmentsSet, 7, "derivedOutstandingAmount")
  {
  }

  lemma InstallmentCells(i: InstallmentExport, asOf: string)
    requires ShapeInstallment(i, asOf).Row?
    ensures var cells := ShapeInstallment(i, asOf).cells;
            && cells[4] == FormatAmount(i.amount) && cells[6] == FormatAmount(NetActive(i.allocations))
            && cells[7] == FormatAmount(Outstanding(i.amount, NetActive(i.allocations)))
  {
    hide FormatAmount, NetActive, FormatDateOnly, IntegerText;
  }

  /** The amount is covered or outstanding, unless it is over-covered. */
  predicate InstallmentBalances(cells: seq<string>, amount: int)
    requires |cells| == 9
  {
    var whole, covered, outstanding := ParseAmount(cells[4]), ParseAmount(cells[6]), ParseAmount(cells[7]);
    && whole == Some(amount) && covered.Some? && outstanding.Some?
    && if covered.value <= amount then amount == covered.value + outstanding.value else outstanding == Some(0)
  }

  /** Read back from the cells, an installment row balances. */
  lemma InstallmentRowBalances(i: InstallmentExport, asOf: string)
    requires ShapeInstallment(i, asOf).Row?
    ensures && Named(InstallmentsSet, 4, "amount") && Named(InstallmentsSet, 6, "derivedNetActiveAllocation")
            && Named(InstallmentsSet, 7, "derivedOutstandingAmount")
    ensures InstallmentBalances(ShapeInstallment(i, asOf).cells, i.amount)
  {
    hide FormatAmount, ParseAmount, ShapeInstallment, NetActive, Named, FormatDateOnly;
    InstallmentHeader();
    InstallmentCells(i, asOf);
    AmountCellIsExact(i.amount);
    AmountCellIsExact(NetActive(i.allocations));
    AmountCellIsExact(Outstanding(i.amount, NetActive(i.allocations)));
  }

  /** Amount, date and time cells of the years 0 to 9999 pass the formula check unchanged. */
  lemma DerivedCellsAreUntouched(n: nat, day: Day, t: Instant)
    ensures Neutralize(FormatAmount(n)) == FormatAmount(n)
    ensures 0 <= Calendar.CivilOf(day).year <= 9999 ==> Neutralize(FormatDateOnly(day)) == FormatDateOnly(day)
    ensures 0 <= Calendar.CivilOf((t + MANILA_OFFSET_MS) / DAY_MS).year <= 9999 ==>
              Neutralize(FormatManilaTimestamp(t)) == FormatManilaTimestamp(t)
  {
    hide Calendar.CivilOf, FormatAmount, FormatManilaTimestamp, FormatDateOnly;
    AmountCellIsExact(n);
    if 0 <= Calendar.CivilOf(day).year <= 9999 {
      DateCellStart(day);
    }
    if 0 <= Calendar.CivilOf((t + MANILA_OFFSET_MS) / DAY_MS).year <= 9999 {
      TimestampDate(t);
    }
  }

  lemma DateCellStart(day: Day)
    requires 0 <= Calendar.CivilOf(day).year <= 9999
    ensures '0' <= FormatDateOnly(day)[0] <= '9'
  {
    hide Calendar.CivilOf;
    var c := Calendar.CivilOf(day);
    PlainPrefix(c, "");
    PlainDateParts(c);
    assert IsoDate(c)[..4][0] == IsoDate(c)[0];
  }
}
