/** One finance export: check, select, count, shape, audit, commit, encode, in that order. */
module ExportService {
  import opened Wrappers
  import opened Calculations
  import opened ExportDates
  import opened ExportCsv
  import opened ExportJoin
  import opened ExportRows

  const ROW_LIMIT: nat := 10_000

  datatype Role = AdminManager | FinanceAccounting | TravelConsultant | Client | SystemAdministrator

  predicate MayExport(role: Role) {
    role.AdminManager? || role.FinanceAccounting?
  }

  datatype Scope = AllBookings | AssignedBookings

  /** The stored account as the transaction's first statement reads it, with the clock. */
  datatype Recheck = Recheck(isActive: bool, role: Role, asOf: Instant)

  datatype Request = Request(
    dataset: Dataset, from: Option<string>, to: Option<string>, bookingReference: Option<string>, status: Option<PaymentStatus>)

  /** The request schema: which filters a dataset takes, and the range rules; the reference's own format is not looked at. */
  predicate Accepts(r: Request) {
    && (r.from.Some? ==> IsRealCalendarDate(r.from.value))
    && (r.to.Some? ==> IsRealCalendarDate(r.to.value))
    && (r.status.Some? ==> r.dataset.PaymentsSet?)
    && if r.dataset.BookingsSet? then r.from.None? && r.to.None?
       else
         && (r.from.Some? <==> r.to.Some?)
         && (r.from.Some? || r.bookingReference.Some?)
         && (r.from.Some? ==> RangeAccepted(r.from.value, r.to.value))
  }

  function ReferenceOf(record: Record): string {
    match record
    case BookingRecord(data) => data.booking.reference
    case PaymentRecord(p) => p.reference
    case RefundRecord(r) => r.reference
    case AllocationRecord(a) => a.reference
    case InstallmentRecord(i) => i.reference
  }

  predicate InInstants(from: string, to: string, t: int)
    requires RangeAccepted(from, to)
  {
    var (gte, lt) := ManilaDayRange(from, to);
    gte <= t < lt
  }

  /** The date column each dataset is filtered by; bookings have none. */
  predicate InRange(record: Record, from: string, to: string)
    requires RangeAccepted(from, to)
  {
    match record
    case BookingRecord(_) => true
    case PaymentRecord(p) => InInstants(from, to, p.createdAt)
    case RefundRecord(r) => InInstants(from, to, r.performedAt)
    case AllocationRecord(a) => InInstants(from, to, a.allocatedAt)
    case InstallmentRecord(i) => ParseDay(from).value * DAY_MS <= i.dueDate * DAY_MS <= ParseDay(to).value * DAY_MS
  }

  /** The where clause of a dataset, the same for the count and the read. */
  predicate Wanted(record: Record, r: Request, scope: Scope, granted: set<string>)
    requires Accepts(r)
  {
    && DatasetOf(record) == r.dataset
    && (scope.AssignedBookings? ==> ReferenceOf(record) in granted)
    && (r.bookingReference.Some? ==> ReferenceOf(record) == r.bookingReference.value)
    && (r.from.Some? ==> InRange(record, r.from.value, r.to.value))
    && (record.PaymentRecord? && r.status.Some? ==> record.payment.status == r.status.value)
    && (record.BookingRecord? ==> record.data.booking.total.Some? && record.data.booking.currency.Some?)
  }

  /** The stored rows the request selects, in their order. */
  function Selected(stored: seq<Record>, r: Request, scope: Scope, granted: set<string>): (records: seq<Record>)
    requires Accepts(r)
    ensures forall x :: x in records <==> x in stored && Wanted(x, r, scope, granted)
  {
    if stored == [] then []
    else
      var n := |stored| - 1;
      Selected(stored[..n], r, scope, granted) + if Wanted(stored[n], r, scope, granted) then [stored[n]] else []
  }

  datatype ExportEntry = ExportEntry(request: Request, role: Role, scope: Scope, rowCount: nat, bookingCount: nat, asOf: string)

  datatype Export = Export(entry: ExportEntry, content: string)

  datatype Outcome =
    | Exported(file: Export)
    | RoleNotPermitted
    | InvalidRequest
    | RowLimitExceeded
    | IntegrityRefused(column: string)
    | EncodingFailed

  predicate OfDataset(records: seq<Record>, dataset: Dataset) {
    forall i | 0 <= i < |records| :: DatasetOf(records[i]) == dataset
  }

  predicate AllShaped(records: seq<Record>, asOf: string) {
    forall i | 0 <= i < |records| :: Shape(records[i], asOf).Row?
  }

  predicate SomeRowFails(records: seq<Record>, asOf: string, column: string) {
    exists i :: 0 <= i < |records| && Shape(records[i], asOf) == Refused(column)
  }

  function CellsOf(records: seq<Record>, asOf: string): (rows: seq<seq<string>>)
    requires AllShaped(records, asOf)
    ensures |rows| == |records|
  {
    seq(|records|, i requires 0 <= i < |records| => Shape(records[i], asOf).cells)
  }

  lemma CellsFit(records: seq<Record>, dataset: Dataset, asOf: string)
    requires OfDataset(records, dataset) && AllShaped(records, asOf)
    ensures AllWide(CellsOf(records, asOf), |Columns(dataset)|)
  {
    hide Shape, Columns;
    forall i | 0 <= i < |records| ensures |CellsOf(records, asOf)[i]| == |Columns(dataset)| {
      ShapedRowsFitHeader(records[i], asOf);
    }
  }

  function Reference(cells: seq<string>, dataset: Dataset): string {
    if ReferenceIndex(dataset) < |cells| then cells[ReferenceIndex(dataset)] else ""
  }

  /** The distinct booking references of the shaped rows. */
  function References(rows: seq<seq<string>>, dataset: Dataset): (refs: set<string>) {
    set i | 0 <= i < |rows| :: Reference(rows[i], dataset)
  }

  /** What a reader of the delivered file finds, next to what the audit entry says. */
  ghost predicate FileMatchesEntry(file: Export, records: seq<Record>, dataset: Dataset) {
    && AllShaped(records, file.entry.asOf)
    && Decode(file.content) == Some([Neutralized(Columns(dataset))] + NeutralizedRows(CellsOf(records, file.entry.asOf)))
    && file.entry.rowCount == |records|
    && file.entry.bookingCount == |References(CellsOf(records, file.entry.asOf), dataset)|
  }

  /** Reads and shapes; the first row that fails its integrity check refuses the whole file. */
  method ShapeRows(records: seq<Record>, asOf: string) returns (rows: seq<seq<string>>, refused: Option<string>)
    ensures refused.None? <==> AllShaped(records, asOf)
    ensures refused.None? ==> rows == CellsOf(records, asOf)
    ensures refused.Some? ==> SomeRowFails(records, asOf, refused.value)
  {
    hide Shape;
    rows := [];
    for i := 0 to |records|
      invariant |rows| == i && forall j | 0 <= j < i :: Shape(records[j], asOf) == Row(rows[j])
    {
      var shaped := Shape(records[i], asOf);
      if shaped.Refused? {
        return [], Some(shaped.column);
      }
      rows := rows + [shaped.cells];
    }
    return rows, None;
  }

  /** The encoded rows read back as the entry says. */
  lemma DeliveredFile(records: seq<Record>, request: Request, entry: ExportEntry, content: string)
    requires OfDataset(records, request.dataset) && AllShaped(records, entry.asOf)
    requires entry.rowCount == |records| && entry.bookingCount == |References(CellsOf(records, entry.asOf), request.dataset)|
    requires content == Encoded(Columns(request.dataset), CellsOf(records, entry.asOf))
    ensures FileMatchesEntry(Export(entry, content), records, request.dataset)
    ensures entry.bookingCount <= entry.rowCount
  {
    hide Shape, Columns, Decode, Encoded, Neutralized, NeutralizedRows, CellsOf, References;
    CellsFit(records, request.dataset, entry.asOf);
    CsvRoundTrip(Columns(request.dataset), CellsOf(records, entry.asOf));
    ReferencesAreFew(CellsOf(records, entry.asOf), request.dataset);
  }

  /** The account and clock of the transaction, printed; empty without them. */
  function AsOf(recheck: Option<Recheck>): string {
    if recheck.Some? then FormatManilaTimestamp(recheck.value.asOf) else ""
  }

  function ScopeOf(role: Role): Scope {
    if role.AdminManager? then AllBookings else AssignedBookings
  }

  /** Session, request and stored account let the rows be read. */
  predicate MayRead(sessionRole: Role, request: Option<Request>, recheck: Option<Recheck>) {
    && MayExport(sessionRole) && request.Some? && Accepts(request.value)
    && recheck.Some? && recheck.value.isActive && MayExport(recheck.value.role)
  }

  /** Only managers and finance accounts read, by their session and by their stored, active account. */
  lemma ReadersAreExporters(sessionRole: Role, request: Option<Request>, recheck: Option<Recheck>)
    ensures MayRead(sessionRole, request, recheck) <==>
            && sessionRole in {AdminManager, FinanceAccounting}
            && request.Some? && Accepts(request.value)
            && recheck.Some? && recheck.value.isActive && recheck.value.role in {AdminManager, FinanceAccounting}
  {
    hide Accepts;
  }

  /** What the one snapshot of the transaction holds for the request and the stored role. */
  function RowsRead(
      sessionRole: Role, request: Option<Request>, recheck: Option<Recheck>, stored: seq<Record>, granted: set<string>)
    : (records: seq<Record>)
    requires MayRead(sessionRole, request, recheck)
  {
    Selected(stored, request.value, ScopeOf(recheck.value.role), granted)
  }

  /** Everything a delivered file needs. */
  predicate MayDeliver(
      sessionRole: Role, request: Option<Request>, recheck: Option<Recheck>, stored: seq<Record>, granted: set<string>)
  {
    && MayRead(sessionRole, request, recheck)
    && |RowsRead(sessionRole, request, recheck, stored, granted)| <= ROW_LIMIT
    && AllShaped(RowsRead(sessionRole, request, recheck, stored, granted), AsOf(recheck))
  }

  /** The file holds exactly the selected rows and matches its entry, which states the request, the stored role and its scope. */
  ghost predicate IsDelivery(file: Export, request: Request, recheck: Recheck, records: seq<Record>) {
    && FileMatchesEntry(file, records, request.dataset)
    && file.entry.request == request && file.entry.asOf == AsOf(Some(recheck))
    && file.entry.bookingCount <= file.entry.rowCount <= ROW_LIMIT
    && file.entry.role == recheck.role
    && file.entry.scope == ScopeOf(recheck.role)
  }

  // ---------------------------------------------------------------- what a request asks for, by role and by day

  /** A range of one to 366 days in text order, or one booking, or both. */
  predicate IsDated(r: Request) {
    || (r.from == None && r.to == None && r.bookingReference != None)
    || (r.from.Some? && r.to.Some? && RangeAccepted(r.from.value, r.to.value))
  }

  /** Each dataset takes its own filters and no others. */
  lemma AcceptedRequests(r: Request)
    ensures Accepts(r) <==>
            match r.dataset
            case BookingsSet => r.from == None && r.to == None && r.status == None
            case PaymentsSet => IsDated(r)
            case _ => IsDated(r) && r.status == None
  {
    hide RangeAccepted, IsRealCalendarDate;
    if r.from.Some? && r.to.Some? && RangeAccepted(r.from.value, r.to.value) {
      RangeIsReal(r.from.value, r.to.value);
    }
  }

  lemma RangeIsReal(from: string, to: string)
    requires RangeAccepted(from, to)
    ensures IsRealCalendarDate(from) && IsRealCalendarDate(to)
    ensures ParseDay(from).Some? && ParseDay(to).Some?
  {
    hide ParseDay;
  }

  /** The Philippine day, or due date, that a record is filtered by. */
  function FilteredDay(record: Record): int
    requires !record.BookingRecord?
  {
    match record
    case PaymentRecord(p) => ManilaDay(p.createdAt)
    case RefundRecord(r) => ManilaDay(r.performedAt)
    case AllocationRecord(a) => ManilaDay(a.allocatedAt)
    case InstallmentRecord(i) => i.dueDate
  }

  /** The stored row is one the request asks for, and the role may see its booking. */
  predicate Asked(record: Record, r: Request, role: Role, granted: set<string>) {
    && DatasetOf(record) == r.dataset
    && (role == AdminManager || (role == FinanceAccounting && ReferenceOf(record) in granted))
    && (r.bookingReference != None ==> r.bookingReference == Some(ReferenceOf(record)))
    && (r.from.Some? && r.to.Some? && !record.BookingRecord? ==>
          && ParseDay(r.from.value).Some? && ParseDay(r.to.value).Some?
          && ParseDay(r.from.value).value <= FilteredDay(record) <= ParseDay(r.to.value).value)
    && (record.PaymentRecord? && r.status != None ==> r.status == Some(record.payment.status))
    && (record.BookingRecord? ==> record.data.booking.total != None && record.data.booking.currency != None)
  }

  lemma WantedIsAsked(record: Record, r: Request, role: Role, granted: set<string>)
    requires Accepts(r) && MayExport(role)
    ensures Wanted(record, r, ScopeOf(role), granted) <==> Asked(record, r, role, granted)
  {
    hide IsRealCalendarDate, ParseDay;
    if r.from.Some? && r.to.Some? && RangeAccepted(r.from.value, r.to.value) {
      RangeIsReal(r.from.value, r.to.value);
      var first, last := ParseDay(r.from.value).value, ParseDay(r.to.value).value;
      match record
      case PaymentRecord(p) => DayBounds(p.createdAt, first, last);
      case RefundRecord(x) => DayBounds(x.performedAt, first, last);
      case AllocationRecord(a) => DayBounds(a.allocatedAt, first, last);
      case _ =>
    }
  }

  /** The positions, ascending, of exactly the stored rows that are asked for. */
  ghost predicate ArePositions(at: seq<nat>, stored: seq<Record>, r: Request, role: Role, granted: set<string>) {
    && (forall k | 0 <= k < |at| :: at[k] < |stored|)
    && (forall j, k | 0 <= j < k < |at| :: at[j] < at[k])
    && (forall i: nat | i < |stored| :: i in at <==> Asked(stored[i], r, role, granted))
  }

  /** The rows read are the asked ones, each once for each time it is stored, in their order. */
  lemma {:induction false} SelectedPositions(stored: seq<Record>, r: Request, role: Role, granted: set<string>)
    returns (at: seq<nat>)
    requires Accepts(r) && MayExport(role)
    ensures ArePositions(at, stored, r, role, granted)
    ensures var records := Selected(stored, r, ScopeOf(role), granted);
            |at| == |records| && forall k | 0 <= k < |at| :: records[k] == stored[at[k]]
  {
    hide Accepts, Wanted, Asked, ScopeOf, MayExport;
    if stored == [] {
      at := [];
    } else {
      var n := |stored| - 1;
      at := SelectedPositions(stored[..n], r, role, granted);
      WantedIsAsked(stored[n], r, role, granted);
      hide ArePositions;
      var before := at;
      at := NextPosition(before, stored, r, role, granted);
    }
  }

  /** One stored row more: its position is added exactly when it is asked for. */
  lemma NextPosition(before: seq<nat>, stored: seq<Record>, r: Request, role: Role, granted: set<string>) returns (at: seq<nat>)
    requires stored != [] && ArePositions(before, stored[..|stored| - 1], r, role, granted)
    ensures at == before + if Asked(stored[|stored| - 1], r, role, granted) then [|stored| - 1] else []
    ensures ArePositions(at, stored, r, role, granted)
  {
    hide Asked;
    var n := |stored| - 1;
    at := before + if Asked(stored[n], r, role, granted) then [n] else [];
    forall i: nat | i < |stored| ensures i in at <==> Asked(stored[i], r, role, granted) {
      assert i < n ==> stored[..n][i] == stored[i];
      assert n !in before;
    }
  }

  /**
   * Read back, the file is the header and exactly the asked rows in their order; its entry repeats the request, the
   * stored role, the scope of that role and the number of rows.
   */
  ghost predicate FileAnswers(file: Export, r: Request, recheck: Recheck, stored: seq<Record>, granted: set<string>) {
    && file.entry.request == r && file.entry.role == recheck.role
    && file.entry.scope == (if recheck.role == AdminManager then AllBookings else AssignedBookings)
    && exists at: seq<nat> ::
         ArePositions(at, stored, r, recheck.role, granted) && file.entry.rowCount == |at| && HoldsRows(file, r, stored, at)
  }

  ghost predicate HoldsRows(file: Export, r: Request, stored: seq<Record>, at: seq<nat>) {
    && (forall k | 0 <= k < |at| :: at[k] < |stored|)
    && var text := Decode(file.content);
       && text.Some? && |text.value| == |at| + 1
       && text.value[0] == Neutralized(Columns(r.dataset))
       && forall k | 0 <= k < |at| ::
            && Shape(stored[at[k]], file.entry.asOf).Row?
            && text.value[k + 1] == Neutralized(Shape(stored[at[k]], file.entry.asOf).cells)
  }

  lemma DeliveryAnswers(
      file: Export, sessionRole: Role, request: Option<Request>, recheck: Option<Recheck>, stored: seq<Record>, granted: set<string>)
    requires MayRead(sessionRole, request, recheck)
    requires IsDelivery(file, request.value, recheck.value, RowsRead(sessionRole, request, recheck, stored, granted))
    ensures FileAnswers(file, request.value, recheck.value, stored, granted)
  {
    hide Accepts, Selected, Wanted, Asked, Decode, Columns, Shape, References, AsOf, Neutralized;
    var at := SelectedPositions(stored, request.value, recheck.value.role, granted);
    assert HoldsRows(file, request.value, stored, at);
  }

  class FinanceExports {
    var audit: seq<ExportEntry>

    constructor ()
      ensures audit == []
    {
      audit := [];
    }

    /**
     * `stored` is the snapshot's rows in the dataset's order, with an installment only of an approved plan; `granted`
     * the bookings the stored account is assigned to. Exactly a delivered file has an entry, and the file holds the
     * rows the request selects; encoding never fails.
     */
    method Generate(
        sessionRole: Role, request: Option<Request>, recheck: Option<Recheck>, stored: seq<Record>, granted: set<string>)
      returns (outcome: Outcome)
      modifies this
      ensures outcome.Exported? <==> MayDeliver(sessionRole, request, recheck, stored, granted)
      ensures outcome.Exported? ==>
                IsDelivery(outcome.file, request.value, recheck.value, RowsRead(sessionRole, request, recheck, stored, granted))
      ensures outcome.Exported? ==> FileAnswers(outcome.file, request.value, recheck.value, stored, granted)
      ensures audit == old(audit) + if outcome.Exported? then [outcome.file.entry] else []
      ensures outcome != EncodingFailed
      ensures outcome == RoleNotPermitted <==>
                || sessionRole !in {AdminManager, FinanceAccounting}
                || (request.Some? && Accepts(request.value)
                    && (recheck.None? || !recheck.value.isActive || recheck.value.role !in {AdminManager, FinanceAccounting}))
      ensures outcome == InvalidRequest <==> MayExport(sessionRole) && (request.None? || !Accepts(request.value))
      ensures outcome == RowLimitExceeded <==>
                MayRead(sessionRole, request, recheck) && |RowsRead(sessionRole, request, recheck, stored, granted)| > ROW_LIMIT
      ensures outcome.IntegrityRefused? ==>
                && MayRead(sessionRole, request, recheck)
                && SomeRowFails(RowsRead(sessionRole, request, recheck, stored, granted), AsOf(recheck), outcome.column)
    {
      hide Shape, Columns, AsOf, FileMatchesEntry, Encoded, CellsOf, References, AllShaped, AllWide;
      hide SomeRowFails, Accepts, Selected, Wanted, FileAnswers;
      if !MayExport(sessionRole) {
        return RoleNotPermitted;
      }
      if request.None? || !Accepts(request.value) {
        return InvalidRequest;
      }
      if recheck.None? || !recheck.value.isActive || !MayExport(recheck.value.role) {
        return RoleNotPermitted;
      }
      var role := recheck.value.role;
      var scope := ScopeOf(role);
      var asOf := AsOf(recheck);
      var records := Selected(stored, request.value, scope, granted);
      if |records| > ROW_LIMIT {
        return RowLimitExceeded;
      }
      var rows, refused := ShapeRows(records, asOf);
      if refused.Some? {
        return IntegrityRefused(refused.value);
      }
      SelectedAreOfDataset(stored, request.value, scope, granted);
      var dataset := request.value.dataset;
      var entry := ExportEntry(request.value, role, scope, |rows|, |References(rows, dataset)|, asOf);
      audit := audit + [entry];
      CellsFit(records, dataset, asOf);
      var text := EncodeCsv(Columns(dataset), rows);
      if text.None? {
        return EncodingFailed;
      }
      DeliveredFile(records, request.value, entry, text.value);
      DeliveryAnswers(Export(entry, text.value), sessionRole, request, recheck, stored, granted);
      return Exported(Export(entry, text.value));
    }
  }

  lemma SelectedAreOfDataset(stored: seq<Record>, r: Request, scope: Scope, granted: set<string>)
    requires Accepts(r)
    ensures OfDataset(Selected(stored, r, scope, granted), r.dataset)
  {
    hide Accepts, InRange;
    var records := Selected(stored, r, scope, granted);
    forall i | 0 <= i < |records| ensures DatasetOf(records[i]) == r.dataset {
      assert records[i] in records;
    }
  }

  // ---------------------------------------------------------------- what the rows of a file show

  /** The cell that prints the filtered date. */
  function DateIndex(dataset: Dataset): (i: nat)
    requires !dataset.BookingsSet?
    ensures i < Width(dataset)
  {
    match dataset
    case PaymentsSet => 6
    case RefundsSet => 5
    case AllocationsSet => 9
    case InstallmentsSet => 5
  }

  lemma BookingLabels(data: BookingData, asOf: string)
    requires ShapeBooking(data, asOf).Row?
    ensures ShapeBooking(data, asOf).cells[0] == data.booking.reference
  {
    hide ShapeBooking, BuildSummary;
    BookingCells(data, asOf);
  }

  lemma PaymentLabels(p: PaymentExport, asOf: string)
    requires ShapePayment(p, asOf).Row?
    ensures var cells := ShapePayment(p, asOf).cells;
            cells[1] == p.reference && cells[6] == FormatManilaTimestamp(p.createdAt)
  {
    hide FormatManilaTimestamp, FormatAmount, NetActive, NetContribution, WithStatus, TimeText, FirstTime, StatusText;
  }

  lemma RefundLabels(r: RefundExport, asOf: string)
    requires ShapeRefund(r, asOf).Row?
    ensures var cells := ShapeRefund(r, asOf).cells;
            cells[2] == r.reference && cells[5] == FormatManilaTimestamp(r.performedAt)
  {
    hide FormatManilaTimestamp, FormatAmount;
  }

  lemma AllocationLabels(a: AllocationExport, asOf: string)
    requires ShapeAllocation(a, asOf).Row?
    ensures var cells := ShapeAllocation(a, asOf).cells;
            cells[3] == a.reference && cells[9] == FormatManilaTimestamp(a.allocatedAt)
  {
    hide FormatManilaTimestamp, FormatAmount, FormatDateOnly, NetOf, StatusText, IntegerText, BooleanText;
  }

  lemma InstallmentLabels(i: InstallmentExport, asOf: string)
    requires ShapeInstallment(i, asOf).Row?
    ensures var cells := ShapeInstallment(i, asOf).cells;
            cells[0] == i.reference && cells[5] == FormatDateOnly(i.dueDate)
  {
    hide FormatDateOnly, FormatAmount, NetActive, Outstanding, IntegerText, BooleanText;
  }

  lemma ReferenceCell(cells: seq<string>, dataset: Dataset)
    requires |cells| == Width(dataset)
    ensures Reference(cells, dataset) == cells[
      match dataset
      case BookingsSet => 0
      case PaymentsSet => 1
      case RefundsSet => 2
      case AllocationsSet => 3
      case InstallmentsSet => 0]
  {
    hide Columns;
  }

  /** A printed row names the booking it was selected by. */
  lemma PrintedReference(record: Record, asOf: string)
    requires Shape(record, asOf).Row?
    ensures Reference(Shape(record, asOf).cells, DatasetOf(record)) == ReferenceOf(record)
  {
    hide ShapeBooking, ShapePayment, ShapeRefund, ShapeAllocation, ShapeInstallment, Columns, Reference;
    ShapedRowsFitHeader(record, asOf);
    ReferenceCell(Shape(record, asOf).cells, DatasetOf(record));
    match record
    case BookingRecord(data) => BookingLabels(data, asOf);
    case PaymentRecord(p) => PaymentLabels(p, asOf);
    case RefundRecord(r) => RefundLabels(r, asOf);
    case AllocationRecord(a) => AllocationLabels(a, asOf);
    case InstallmentRecord(i) => InstallmentLabels(i, asOf);
  }

  /** Every booking a file names is one the scope and the request allow. */
  lemma FileNamesAllowedBookings(stored: seq<Record>, r: Request, scope: Scope, granted: set<string>, asOf: string)
    requires Accepts(r) && AllShaped(Selected(stored, r, scope, granted), asOf)
    ensures forall ref | ref in References(CellsOf(Selected(stored, r, scope, granted), asOf), r.dataset) ::
              (scope.AssignedBookings? ==> ref in granted) && (r.bookingReference.Some? ==> ref == r.bookingReference.value)
  {
    hide Accepts, InRange, Shape, Reference;
    var records := Selected(stored, r, scope, granted);
    forall i | 0 <= i < |records|
      ensures Reference(CellsOf(records, asOf)[i], r.dataset) == ReferenceOf(records[i])
      ensures (scope.AssignedBookings? ==> ReferenceOf(records[i]) in granted)
      ensures r.bookingReference.Some? ==> ReferenceOf(records[i]) == r.bookingReference.value
    {
      assert records[i] in records;
      PrintedReference(records[i], asOf);
    }
  }

  /** Every booking named in a finance account's file is assigned to that account; the entry says so. */
  lemma FinanceFilesNameAssignedBookings(
      file: Export, r: Request, recheck: Recheck, stored: seq<Record>, granted: set<string>, k: nat)
    requires FileAnswers(file, r, recheck, stored, granted) && recheck.role == FinanceAccounting && k < file.entry.rowCount
    ensures file.entry.scope == AssignedBookings
    ensures Decode(file.content).Some? && k + 1 < |Decode(file.content).value|
    ensures var row := Decode(file.content).value[k + 1];
            ReferenceIndex(r.dataset) < |row| && exists b :: b in granted && row[ReferenceIndex(r.dataset)] == Neutralize(b)
  {
    hide Columns, Decode, Shape, Neutralize;
    var at: seq<nat> :|
      ArePositions(at, stored, r, recheck.role, granted) && file.entry.rowCount == |at| && HoldsRows(file, r, stored, at);
    var record := stored[at[k]];
    assert at[k] in at;
    ShapedRowsFitHeader(record, file.entry.asOf);
    PrintedReference(record, file.entry.asOf);
    assert ReferenceOf(record) in granted;
  }

  /** A manager's file does not depend on assignments at all. */
  lemma ManagerFilesIgnoreAssignments(
      sessionRole: Role, request: Option<Request>, recheck: Option<Recheck>, stored: seq<Record>,
      granted: set<string>, other: set<string>)
    requires MayRead(sessionRole, request, recheck) && recheck.value.role == AdminManager
    ensures RowsRead(sessionRole, request, recheck, stored, granted) == RowsRead(sessionRole, request, recheck, stored, other)
    ensures MayDeliver(sessionRole, request, recheck, stored, granted) <==> MayDeliver(sessionRole, request, recheck, stored, other)
  {
    hide Accepts, AsOf, AllShaped;
    SelectionIgnoresAssignments(stored, request.value, granted, other);
  }

  lemma {:induction false} SelectionIgnoresAssignments(stored: seq<Record>, r: Request, granted: set<string>, other: set<string>)
    requires Accepts(r)
    ensures Selected(stored, r, ScopeOf(AdminManager), granted) == Selected(stored, r, ScopeOf(AdminManager), other)
  {
    hide Accepts, InRange;
    if stored != [] {
      SelectionIgnoresAssignments(stored[..|stored| - 1], r, granted, other);
    }
  }

  /** The row prints the record, with a date between the texts of the range and the status asked for. */
  ghost predicate PrintsWithin(row: seq<string>, record: Record, r: Request, asOf: string) {
    && Shape(record, asOf).Row? && row == Neutralized(Shape(record, asOf).cells)
    && (r.from.Some? && r.to.Some? && !record.BookingRecord? && InPlainYears(FilteredDay(record)) ==>
          BetweenDates(r.from.value, DateText(record, asOf), r.to.value))
    && (record.PaymentRecord? && r.status != None ==> r.status == Some(record.payment.status))
  }

  /** Every row of a file prints a stored record of the dataset within the range and with the status asked for. */
  lemma FileRowsShowTheRequest(file: Export, r: Request, recheck: Recheck, stored: seq<Record>, granted: set<string>, k: nat)
    requires FileAnswers(file, r, recheck, stored, granted) && Accepts(r) && k < file.entry.rowCount
    ensures Decode(file.content).Some? && k + 1 < |Decode(file.content).value|
    ensures exists i :: 0 <= i < |stored| && DatasetOf(stored[i]) == r.dataset
                        && PrintsWithin(Decode(file.content).value[k + 1], stored[i], r, file.entry.asOf)
  {
    hide Columns, Decode, Shape, Neutralized, Accepts, Asked, PrintsWithin;
    var at: seq<nat> :|
      ArePositions(at, stored, r, recheck.role, granted) && file.entry.rowCount == |at| && HoldsRows(file, r, stored, at);
    var i := at[k];
    assert i in at;
    AskedPrintsWithin(Decode(file.content).value[k + 1], stored[i], r, recheck.role, granted, file.entry.asOf);
  }

  lemma AskedPrintsWithin(row: seq<string>, record: Record, r: Request, role: Role, granted: set<string>, asOf: string)
    requires Accepts(r) && Asked(record, r, role, granted)
    requires Shape(record, asOf).Row? && row == Neutralized(Shape(record, asOf).cells)
    ensures DatasetOf(record) == r.dataset && PrintsWithin(row, record, r, asOf)
  {
    hide Shape, BetweenDates, RangeAccepted, DateText, ParseDay, IsRealCalendarDate, InPlainYears, Neutralized, InRange;
    if r.from.Some? && r.to.Some? && !record.BookingRecord? && InPlainYears(FilteredDay(record)) {
      InRangeByDay(record, r.from.value, r.to.value);
      PrintedDateDecides(record, r.from.value, r.to.value, asOf);
    }
  }

  lemma InRangeByDay(record: Record, from: string, to: string)
    requires RangeAccepted(from, to) && !record.BookingRecord?
    ensures ParseDay(from).Some? && ParseDay(to).Some?
    ensures InRange(record, from, to) <==> ParseDay(from).value <= FilteredDay(record) <= ParseDay(to).value
  {
    hide IsRealCalendarDate, ParseDay;
    RangeIsReal(from, to);
    var first, last := ParseDay(from).value, ParseDay(to).value;
    match record
    case PaymentRecord(p) => DayBounds(p.createdAt, first, last);
    case RefundRecord(x) => DayBounds(x.performedAt, first, last);
    case AllocationRecord(a) => DayBounds(a.allocatedAt, first, last);
    case _ =>
  }

  /** The date a record is filtered by, as its row prints it. */
  function PrintedDate(record: Record): (s: string)
    requires !record.BookingRecord?
    ensures |s| == 10
  {
    match record
    case PaymentRecord(p) => FormatManilaTimestamp(p.createdAt)[..10]
    case RefundRecord(r) => FormatManilaTimestamp(r.performedAt)[..10]
    case AllocationRecord(a) => FormatManilaTimestamp(a.allocatedAt)[..10]
    case InstallmentRecord(i) => FormatDateOnly(i.dueDate)
  }

  lemma DateColumn(dataset: Dataset)
    requires !dataset.BookingsSet?
    ensures Named(dataset, DateIndex(dataset), match dataset
              case PaymentsSet => "recordedAt"
              case RefundsSet => "performedAt"
              case AllocationsSet => "allocatedAt"
              case InstallmentsSet => "dueDate")
  {
  }

  lemma DateCell(record: Record, asOf: string)
    requires !record.BookingRecord? && Shape(record, asOf).Row?
    ensures var i, cells := DateIndex(DatasetOf(record)), Shape(record, asOf).cells;
            i < |cells| && |cells[i]| >= 10 && cells[i][..10] == PrintedDate(record)
  {
    hide ShapeBooking, ShapePayment, ShapeRefund, ShapeAllocation, ShapeInstallment, FormatManilaTimestamp, FormatDateOnly;
    match record
    case PaymentRecord(p) => PaymentLabels(p, asOf);
    case RefundRecord(r) => RefundLabels(r, asOf);
    case AllocationRecord(a) => AllocationLabels(a, asOf);
    case InstallmentRecord(i) =>
      InstallmentLabels(i, asOf);
      var day := FormatDateOnly(i.dueDate);
      assert day[..10] == day;
  }

  /** The date a row prints in its date column. */
  function DateText(record: Record, asOf: string): (text: string)
    requires !record.BookingRecord? && Shape(record, asOf).Row?
    ensures |text| == 10
  {
    DateCell(record, asOf);
    Shape(record, asOf).cells[DateIndex(DatasetOf(record))][..10]
  }

  lemma RangeIsPrinted(record: Record, from: string, to: string)
    requires RangeAccepted(from, to) && !record.BookingRecord? && InPlainYears(FilteredDay(record))
    ensures InRange(record, from, to) <==>
            BetweenDates(from, PrintedDate(record), to) && !(StartsPlus(from) && StartsPlain(to))
  {
    hide RangeAccepted, BetweenDates, FormatManilaTimestamp, FormatDateOnly, ParseDay, InPlainYears, ManilaDay, IsRealCalendarDate;
    match record
    case PaymentRecord(p) => ManilaSelection(from, to, p.createdAt);
    case RefundRecord(r) => ManilaSelection(from, to, r.performedAt);
    case AllocationRecord(a) => ManilaSelection(from, to, a.allocatedAt);
    case InstallmentRecord(i) => DueSelection(from, to, i.dueDate);
  }

  /** A dated row is in the range exactly as its printed date says, unless the range runs from after 9999 back to a plain date. */
  lemma PrintedDateDecides(record: Record, from: string, to: string, asOf: string)
    requires RangeAccepted(from, to) && !record.BookingRecord? && Shape(record, asOf).Row? && InPlainYears(FilteredDay(record))
    ensures InRange(record, from, to) <==>
            BetweenDates(from, DateText(record, asOf), to) && !(StartsPlus(from) && StartsPlain(to))
  {
    hide RangeAccepted, BetweenDates, Shape, InRange, PrintedDate, InPlainYears, FilteredDay, DateIndex, Columns;
    DateCell(record, asOf);
    RangeIsPrinted(record, from, to);
  }

  /** There are at most as many distinct references as rows. */
  lemma {:induction false} ReferencesAreFew(rows: seq<seq<string>>, dataset: Dataset)
    ensures |References(rows, dataset)| <= |rows|
  {
    hide Reference;
    if rows == [] {
      assert References(rows, dataset) == {};
    } else {
      var n := |rows| - 1;
      var last := Reference(rows[n], dataset);
      ReferencesAreFew(rows[..n], dataset);
      forall r ensures r in References(rows, dataset) <==> r in References(rows[..n], dataset) + {last} {
        if r in References(rows, dataset) {
          var i :| 0 <= i < |rows| && Reference(rows[i], dataset) == r;
          assert i < n ==> Reference(rows[..n][i], dataset) == r;
        }
        if r in References(rows[..n], dataset) {
          var i :| 0 <= i < n && Reference(rows[..n][i], dataset) == r;
          assert Reference(rows[i], dataset) == r;
        }
      }
      assert References(rows, dataset) == References(rows[..n], dataset) + {last};
    }
  }
}
