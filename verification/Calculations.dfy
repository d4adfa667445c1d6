/** The balance formulas, on amounts in centavos. Each works on rows already fetched; none reads a table. */
module Calculations {
  import opened Wrappers
  import opened Sequences

  datatype PaymentStatus = Pending | Confirmed | Rejected | Cancelled | Failed | Refunded | Reversed

  datatype PaymentView = PaymentView(status: PaymentStatus, amount: int, refundedTotal: int)

  datatype AllocationView = AllocationView(
    amount: int, paymentStatus: PaymentStatus, isReversed: bool, refundAllocatedTotal: int)

  datatype DueView = DueView(dueDate: int, outstandingAmount: int)

  predicate Contributes(status: PaymentStatus) {
    status.Confirmed? || status.Refunded?
  }

  function Floor(n: int): nat {
    if n < 0 then 0 else n
  }

  function NetContribution(p: PaymentView): nat {
    if Contributes(p.status) then Floor(p.amount - p.refundedTotal) else 0
  }

  function NetConfirmedPaid(ps: seq<PaymentView>): nat {
    if ps == [] then 0 else NetConfirmedPaid(ps[..|ps| - 1]) + NetContribution(ps[|ps| - 1])
  }

  function RemainingBalance(total: int, paid: int): nat {
    Floor(total - paid)
  }

  function Overpayment(total: int, paid: int): nat {
    Floor(paid - total)
  }

  function NetOf(a: AllocationView): int {
    if a.isReversed || !Contributes(a.paymentStatus) then 0 else a.amount - a.refundAllocatedTotal
  }

  function NetActive(views: seq<AllocationView>): int {
    if views == [] then 0 else NetActive(views[..|views| - 1]) + NetOf(views[|views| - 1])
  }

  function UnappliedCredit(paid: int, netActiveByInstallment: seq<int>): int {
    paid - Sum(netActiveByInstallment)
  }

  function Outstanding(amount: int, netActive: int): nat {
    Floor(amount - netActive)
  }

  /** The earlier of the running earliest date and one more installment's, if that one is outstanding. */
  function Earlier(earliest: Option<int>, due: DueView): Option<int> {
    if due.outstandingAmount <= 0 then earliest
    else if earliest.None? || due.dueDate < earliest.value then Some(due.dueDate)
    else earliest
  }

  function NextDue(dues: seq<DueView>): Option<int> {
    if dues == [] then None else Earlier(NextDue(dues[..|dues| - 1]), dues[|dues| - 1])
  }

  method ComputeNextPaymentDue(dues: seq<DueView>) returns (earliest: Option<int>)
    ensures earliest == NextDue(dues)
  {
    earliest := None;
    for i := 0 to |dues|
      invariant earliest == NextDue(dues[..i])
    {
      assert dues[..i + 1][..i] == dues[..i];
      if dues[i].outstandingAmount > 0 && (earliest.None? || dues[i].dueDate < earliest.value) {
        earliest := Some(dues[i].dueDate);
      }
    }
    assert dues[..|dues|] == dues;
  }

  /** What is outstanding on one date. */
  function DueOn(dues: seq<DueView>, date: int): int {
    if dues == [] then 0
    else
      var last := dues[|dues| - 1];
      DueOn(dues[..|dues| - 1], date) + if last.dueDate == date && last.outstandingAmount > 0 then last.outstandingAmount else 0
  }

  function NextDueAmount(dues: seq<DueView>): Option<int> {
    var next := NextDue(dues);
    if next.None? then None else Some(DueOn(dues, next.value))
  }

  /** The next due date is the earliest date with something outstanding; there is none exactly when all is paid. */
  lemma {:induction false} NextDueIsEarliest(dues: seq<DueView>)
    ensures NextDue(dues).None? <==> forall i | 0 <= i < |dues| :: dues[i].outstandingAmount <= 0
    ensures NextDue(dues).Some? ==>
              && (exists i :: 0 <= i < |dues| && dues[i].outstandingAmount > 0 && dues[i].dueDate == NextDue(dues).value)
              && (forall i | 0 <= i < |dues| && dues[i].outstandingAmount > 0 :: NextDue(dues).value <= dues[i].dueDate)
  {
    if dues != [] {
      var n := |dues| - 1;
      NextDueIsEarliest(dues[..n]);
      if NextDue(dues).Some? && (dues[n].outstandingAmount <= 0 || NextDue(dues) == NextDue(dues[..n])) {
        var i :| 0 <= i < n && dues[..n][i].outstandingAmount > 0 && dues[..n][i].dueDate == NextDue(dues).value;
        assert dues[i].outstandingAmount > 0;
      }
    }
  }

  lemma {:induction false} DueOnIsPositive(dues: seq<DueView>, date: int)
    ensures DueOn(dues, date) >= 0
    ensures (exists i :: 0 <= i < |dues| && dues[i].outstandingAmount > 0 && dues[i].dueDate == date) <==> DueOn(dues, date) > 0
  {
    if dues != [] {
      var n := |dues| - 1;
      DueOnIsPositive(dues[..n], date);
      if i :| 0 <= i < |dues| && dues[i].outstandingAmount > 0 && dues[i].dueDate == date {
        assert i < n ==> dues[..n][i].dueDate == date;
      }
      if DueOn(dues[..n], date) > 0 {
        var i :| 0 <= i < n && dues[..n][i].outstandingAmount > 0 && dues[..n][i].dueDate == date;
        assert dues[i].dueDate == date;
      }
    }
  }

  /** The next amount due exists exactly with the next date, and is then positive. */
  lemma NextDueAmountIsPositive(dues: seq<DueView>)
    ensures NextDueAmount(dues).None? <==> NextDue(dues).None?
    ensures NextDueAmount(dues).Some? ==> NextDueAmount(dues).value > 0
  {
    NextDueIsEarliest(dues);
    if NextDue(dues).Some? {
      DueOnIsPositive(dues, NextDue(dues).value);
    }
  }

  /** Remaining balance and overpayment are the two halves of one signed difference; at most one is positive. */
  lemma BalanceSplits(total: int, paid: int)
    ensures RemainingBalance(total, paid) - Overpayment(total, paid) == total - paid
    ensures RemainingBalance(total, paid) == 0 || Overpayment(total, paid) == 0
  {
  }
}
