/**
 * The bookings export's batch reader, which joins flat query answers in memory, against the nested read of
 * one booking. Tables are sets of rows; a query may answer with any ordering its ORDER BY allows.
 */
module ExportJoin {
  import opened Wrappers
  import opened Sequences
  import opened Calculations
  import opened ExportDates

  type Id = int

  datatype PlanStatus = Proposed | Approved | Withdrawn

  datatype BookingRow = BookingRow(id: Id, reference: string, client: string, total: Option<int>, currency: Option<string>)
  datatype PlanRow = PlanRow(id: Id, booking: Id, status: PlanStatus)
  datatype InstallmentRow = InstallmentRow(id: Id, plan: Id, sequenceNumber: int, dueDate: Day, amount: int)
  datatype AllocationRow = AllocationRow(
    id: Id, installment: Id, payment: Id, amount: int, createdAt: int, paymentStatus: PaymentStatus)
  datatype ReversalRow = ReversalRow(id: Id, allocation: Id)
  datatype RefundAllocationRow = RefundAllocationRow(id: Id, allocation: Id, amount: int)
  datatype PaymentRow = PaymentRow(id: Id, booking: Id, amount: int, status: PaymentStatus, createdAt: int)
  datatype RefundRow = RefundRow(id: Id, payment: Id, amount: int)
  datatype ReceiptRow = ReceiptRow(payment: Id, number: string, issuedAt: Instant)

  datatype Tables = Tables(
    plans: set<PlanRow>,
    installments: set<InstallmentRow>,
    allocations: set<AllocationRow>,
    reversals: set<ReversalRow>,
    refundAllocations: set<RefundAllocationRow>,
    payments: set<PaymentRow>,
    refunds: set<RefundRow>,
    receipts: set<ReceiptRow>
  )

  datatype AllocationData = AllocationData(id: Id, payment: Id, view: AllocationView)
  datatype InstallmentData = InstallmentData(id: Id, dueDate: Day, amount: int, allocations: seq<AllocationData>)
  datatype PlanData = PlanData(id: Id, status: PlanStatus, installments: seq<InstallmentData>)
  datatype ReceiptData = ReceiptData(number: string, issuedAt: Instant)
  datatype PaymentData = PaymentData(id: Id, view: PaymentView, receipt: Option<ReceiptData>)
  datatype BookingData = BookingData(booking: BookingRow, plan: Option<PlanData>, payments: seq<PaymentData>)

  // ---------------------------------------------------------------- query answers

  /** No row out of order with an earlier one; ties may fall either way. */
  ghost predicate Sorted<R>(rows: seq<R>, before: (R, R) -> bool) {
    forall i, j | 0 <= i < j < |rows| :: !before(rows[j], rows[i])
  }

  ghost predicate SameRows<R(!new)>(rows: seq<R>, selected: set<R>) {
    forall r :: r in rows <==> r in selected
  }

  ghost predicate IsAnswer<R(!new)>(rows: seq<R>, selected: set<R>, before: (R, R) -> bool) {
    NoDuplicates(rows) && SameRows(rows, selected) && Sorted(rows, before)
  }

  predicate Anyhow<R>(a: R, b: R) {
    false
  }

  predicate BySequence(a: InstallmentRow, b: InstallmentRow) {
    a.sequenceNumber < b.sequenceNumber
  }

  predicate ByAllocationTime(a: AllocationRow, b: AllocationRow) {
    a.createdAt < b.createdAt || (a.createdAt == b.createdAt && a.id < b.id)
  }

  predicate ByPaymentTime(a: PaymentRow, b: PaymentRow) {
    a.createdAt < b.createdAt || (a.createdAt == b.createdAt && a.id < b.id)
  }

  /** What the orderings sort: installments by number, allocations and payments by time and then by id. */
  lemma OrderingsSort(installments: seq<InstallmentRow>, allocations: seq<AllocationRow>, payments: seq<PaymentRow>)
    ensures Sorted(installments, BySequence) <==>
            forall i, j | 0 <= i < j < |installments| :: installments[i].sequenceNumber <= installments[j].sequenceNumber
    ensures Sorted(allocations, ByAllocationTime) <==>
            forall i, j | 0 <= i < j < |allocations| ::
              || allocations[i].createdAt < allocations[j].createdAt
              || (allocations[i].createdAt == allocations[j].createdAt && allocations[i].id <= allocations[j].id)
    ensures Sorted(payments, ByPaymentTime) <==>
            forall i, j | 0 <= i < j < |payments| ::
              || payments[i].createdAt < payments[j].createdAt
              || (payments[i].createdAt == payments[j].createdAt && payments[i].id <= payments[j].id)
  {
  }

  // ---------------------------------------------------------------- groupBy

  /** The rows of one key, in the order they arrived. */
  function Group<R, K(==)>(rows: seq<R>, keyOf: R -> K, k: K): (group: seq<R>) {
    if rows == [] then []
    else
      var last := rows[|rows| - 1];
      Group(rows[..|rows| - 1], keyOf, k) + if keyOf(last) == k then [last] else []
  }

  function Lookup<R, K>(groups: map<K, seq<R>>, k: K): seq<R> {
    if k in groups then groups[k] else []
  }

  method GroupBy<R, K(==)>(rows: seq<R>, keyOf: R -> K) returns (groups: map<K, seq<R>>)
    ensures forall k :: Lookup(groups, k) == Group(rows, keyOf, k)
    ensures forall k | k in groups :: groups[k] != []
  {
    groups := map[];
    for i := 0 to |rows|
      invariant forall k :: Lookup(groups, k) == Group(rows[..i], keyOf, k)
      invariant forall k | k in groups :: groups[k] != []
    {
      var key := keyOf(rows[i]);
      assert rows[..i + 1][..i] == rows[..i];
      if key in groups {
        groups := groups[key := groups[key] + [rows[i]]];
      } else {
        groups := groups[key := [rows[i]]];
      }
    }
    assert rows[..|rows|] == rows;
  }

  lemma {:induction false} GroupMembers<R, K>(rows: seq<R>, keyOf: R -> K, k: K, r: R)
    ensures r in Group(rows, keyOf, k) <==> r in rows && keyOf(r) == k
  {
    if rows != [] {
      var n := |rows| - 1;
      GroupMembers(rows[..n], keyOf, k, r);
      assert r in rows <==> r in rows[..n] || r == rows[n];
    }
  }

  lemma {:induction false} GroupKeepsOrder<R, K>(rows: seq<R>, keyOf: R -> K, k: K, before: (R, R) -> bool)
    requires NoDuplicates(rows) && Sorted(rows, before)
    ensures NoDuplicates(Group(rows, keyOf, k)) && Sorted(Group(rows, keyOf, k), before)
  {
    if rows != [] {
      var n := |rows| - 1;
      GroupKeepsOrder(rows[..n], keyOf, k, before);
      var init := Group(rows[..n], keyOf, k);
      forall i | 0 <= i < |init| ensures init[i] != rows[n] && !before(rows[n], init[i]) {
        GroupMembers(rows[..n], keyOf, k, init[i]);
        var j :| 0 <= j < n && rows[..n][j] == init[i];
        assert rows[j] == init[i];
      }
    }
  }

  /** A group of an answer answers the narrower query for its key. */
  lemma GroupIsAnswer<R(!new), K>(
      rows: seq<R>, selected: set<R>, before: (R, R) -> bool, keyOf: R -> K, k: K, narrower: set<R>)
    requires IsAnswer(rows, selected, before)
    requires forall r :: r in narrower <==> r in selected && keyOf(r) == k
    ensures IsAnswer(Group(rows, keyOf, k), narrower, before)
  {
    GroupKeepsOrder(rows, keyOf, k, before);
    forall r ensures r in Group(rows, keyOf, k) <==> r in narrower {
      GroupMembers(rows, keyOf, k, r);
    }
  }

  /** Where the order decides every pair, a query has one answer. */
  lemma {:induction false} OneAnswer<R(!new)>(s: seq<R>, t: seq<R>, before: (R, R) -> bool)
    requires NoDuplicates(s) && NoDuplicates(t) && Sorted(s, before) && Sorted(t, before)
    requires forall r :: r in s <==> r in t
    requires forall a, b | a in s && b in s && a != b :: before(a, b) || before(b, a)
    ensures s == t
  {
    HasItsFirst(t);
    if s != [] {
      assert s[0] in s;
      assert t[0] in t;
      assert t[0] == s[0];
      RestHasSameRows(s, t);
      OneAnswer(s[1..], t[1..], before);
      assert s == [s[0]] + s[1..] && t == [t[0]] + t[1..];
    }
  }

  lemma RestHasSameRows<R(!new)>(s: seq<R>, t: seq<R>)
    requires NoDuplicates(s) && NoDuplicates(t) && s != [] && t != [] && s[0] == t[0]
    requires forall r :: r in s <==> r in t
    ensures NoDuplicates(s[1..]) && NoDuplicates(t[1..])
    ensures forall r :: r in s[1..] <==> r in t[1..]
  {
    forall r ensures r in s[1..] <==> r in s && r != s[0] {
      if r in s[1..] {
        var i :| 0 <= i < |s| - 1 && s[1..][i] == r;
        assert s[i + 1] == r;
      }
      if r in s && r != s[0] {
        var i :| 0 <= i < |s| && s[i] == r;
        assert s[1..][i - 1] == r;
      }
    }
    forall r ensures r in t[1..] <==> r in t && r != t[0] {
      if r in t[1..] {
        var i :| 0 <= i < |t| - 1 && t[1..][i] == r;
        assert t[i + 1] == r;
      }
      if r in t && r != t[0] {
        var i :| 0 <= i < |t| && t[i] == r;
        assert t[1..][i - 1] == r;
      }
    }
  }
}
