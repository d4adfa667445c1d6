/** The installment-structure rules, checked once by the request schema and once by the service. */
module PlanStructure {
  import opened Wrappers
  import opened Books

  datatype Issue = RepeatedSequence(index: nat) | ExtraDeposit(index: nat) | DepositNotFirst(index: nat)

  /** Positions of the deposits, ascending. */
  function Deposits(items: seq<Item>): (at: seq<nat>)
    ensures forall k | 0 <= k < |at| :: at[k] < |items| && items[at[k]].isDeposit
    ensures forall i | 0 <= i < |items| && items[i].isDeposit :: i in at
    ensures forall j, k | 0 <= j < k < |at| :: at[j] < at[k]
  {
    if items == [] then []
    else
      var n := |items| - 1;
      Deposits(items[..n]) + if items[n].isDeposit then [n] else []
  }

  predicate Distinct(items: seq<Item>) {
    forall i, j | 0 <= i < j < |items| :: items[i].sequenceNumber != items[j].sequenceNumber
  }

  predicate DepositsOk(items: seq<Item>) {
    |Deposits(items)| <= 1 && (Deposits(items) != [] ==> items[Deposits(items)[0]].sequenceNumber == 1)
  }

  lemma AtMostOneDeposit(items: seq<Item>)
    ensures |Deposits(items)| <= 1 <==>
            forall i, j | 0 <= i < |items| && 0 <= j < |items| && items[i].isDeposit && items[j].isDeposit :: i == j
  {
    hide Deposits;
    var at := Deposits(items);
    if |at| > 1 {
      assert items[at[0]].isDeposit && items[at[1]].isDeposit && at[0] < at[1];
    } else {
      forall i | 0 <= i < |items| && items[i].isDeposit ensures |at| == 1 && i == at[0] {
        assert i in at;
      }
    }
  }

  /** The three rules are distinct numbers and a proper deposit. */
  lemma StructureParts(items: seq<Item>)
    ensures StructureOk(items) <==> Distinct(items) && DepositsOk(items)
  {
    hide Deposits;
    AtMostOneDeposit(items);
    var at := Deposits(items);
    if StructureOk(items) && at != [] {
      assert items[at[0]].isDeposit;
    }
    if Distinct(items) && DepositsOk(items) {
      forall i | 0 <= i < |items| && items[i].isDeposit ensures items[i].sequenceNumber == 1 {
        assert i in at && items[at[0]].isDeposit;
      }
    }
  }

  /** The schema's walk over the numbers, with a growing set of the ones seen. */
  method RepeatedNumbers(items: seq<Item>) returns (issues: seq<Issue>)
    ensures issues == [] <==> Distinct(items)
  {
    issues := [];
    var seen: set<int> := {};
    for i := 0 to |items|
      invariant forall x :: x in seen <==> exists k :: 0 <= k < i && items[k].sequenceNumber == x
      invariant issues == [] <==> forall j, k | 0 <= j < k < i :: items[j].sequenceNumber != items[k].sequenceNumber
    {
      if items[i].sequenceNumber in seen {
        issues := issues + [RepeatedSequence(i)];
      }
      seen := seen + {items[i].sequenceNumber};
    }
  }

  /** Every deposit after the first is an issue, and so is a first one with another number than 1. */
  method DepositIssues(items: seq<Item>) returns (issues: seq<Issue>)
    ensures issues == [] <==> DepositsOk(items)
  {
    hide Deposits;
    issues := [];
    var at := Deposits(items);
    var k := 1;
    while k < |at|
      invariant 1 <= k && (k == 1 || k <= |at|)
      invariant issues == [] <==> k == 1
    {
      issues := issues + [ExtraDeposit(at[k])];
      k := k + 1;
    }
    if at != [] && items[at[0]].sequenceNumber != 1 {
      issues := issues + [DepositNotFirst(at[0])];
    }
  }

  method SchemaIssues(items: seq<Item>) returns (issues: seq<Issue>)
    ensures issues == [] <==> StructureOk(items)
  {
    var numbers := RepeatedNumbers(items);
    var deposits := DepositIssues(items);
    StructureParts(items);
    issues := numbers + deposits;
  }

  datatype Violation = NotDistinct | ManyDeposits | DepositNotNumberOne

  /** The service's check: the size of the set of numbers, the number of deposits, the first deposit. */
  function ServiceViolation(items: seq<Item>): Option<Violation> {
    if |set i | 0 <= i < |items| :: items[i].sequenceNumber| != |items| then Some(NotDistinct)
    else if |Deposits(items)| > 1 then Some(ManyDeposits)
    else if Deposits(items) != [] && items[Deposits(items)[0]].sequenceNumber != 1 then Some(DepositNotNumberOne)
    else None
  }

  function Numbers(items: seq<Item>): (numbers: set<int>) {
    set i | 0 <= i < |items| :: items[i].sequenceNumber
  }

  lemma NumbersSnoc(items: seq<Item>)
    requires items != []
    ensures Numbers(items) == Numbers(items[..|items| - 1]) + {items[|items| - 1].sequenceNumber}
  {
    var n := |items| - 1;
    var init, last := items[..n], items[n].sequenceNumber;
    forall x ensures x in Numbers(items) <==> x in Numbers(init) + {last} {
      if x in Numbers(items) {
        var i :| 0 <= i < |items| && items[i].sequenceNumber == x;
        assert i < n ==> init[i].sequenceNumber == x;
      }
      if x in Numbers(init) {
        var i :| 0 <= i < n && init[i].sequenceNumber == x;
        assert items[i].sequenceNumber == x;
      }
    }
  }

  /** A list has as many numbers as items exactly when none repeats. */
  lemma {:induction false} SizeCountsDistinct(items: seq<Item>)
    ensures |Numbers(items)| <= |items|
    ensures |Numbers(items)| == |items| <==> Distinct(items)
  {
    if items == [] {
      assert Numbers(items) == {};
    } else {
      var n := |items| - 1;
      NumbersSnoc(items);
      SizeCountsDistinct(items[..n]);
      LastRepeats(items);
    }
  }

  lemma LastRepeats(items: seq<Item>)
    requires items != []
    ensures var n := |items| - 1;
            Distinct(items) <==> Distinct(items[..n]) && items[n].sequenceNumber !in Numbers(items[..n])
  {
    var n := |items| - 1;
    if items[n].sequenceNumber in Numbers(items[..n]) {
      var i :| 0 <= i < n && items[..n][i].sequenceNumber == items[n].sequenceNumber;
      assert items[i].sequenceNumber == items[n].sequenceNumber;
    } else {
      forall i | 0 <= i < n ensures items[i].sequenceNumber != items[n].sequenceNumber {
        assert items[..n][i].sequenceNumber in Numbers(items[..n]);
      }
    }
    if Distinct(items) {
      assert forall i | 0 <= i < n :: items[..n][i] == items[i];
    }
    if Distinct(items[..n]) {
      assert forall i | 0 <= i < n :: items[i] == items[..n][i];
    }
  }

  /** The service's three tests accept exactly the structures the rules allow, so the two checks agree. */
  lemma ServiceAgreesWithSchema(items: seq<Item>)
    ensures ServiceViolation(items).None? <==> StructureOk(items)
  {
    SizeCountsDistinct(items);
    assert Numbers(items) == set i | 0 <= i < |items| :: items[i].sequenceNumber;
    StructureParts(items);
  }
}
