/** What the ledger invariants mean for balances, plans, exports and retries. */
module BooksTheorems {
  import opened Wrappers
  import opened Sequences
  import opened Calculations
  import opened Books
  import opened BooksProofs

  function PaymentBookings(bk: Books): (keys: seq<nat>) {
    seq(|bk.payments|, p requires 0 <= p < |bk.payments| => bk.payments[p].booking)
  }

  function InstallmentPlans(bk: Books): (keys: seq<nat>) {
    seq(|bk.installments|, i requires 0 <= i < |bk.installments| => bk.installments[i].plan)
  }

  function PaymentViews(bk: Books, ps: seq<nat>): (views: seq<PaymentView>)
    requires forall k | 0 <= k < |ps| :: ps[k] < |bk.payments|
  {
    seq(|ps|, k requires 0 <= k < |ps| => PaymentAt(bk, ps[k]))
  }

  function AllocationViews(bk: Books, ids: seq<nat>): (views: seq<AllocationView>)
    requires forall k | 0 <= k < |ids| :: ids[k] < |bk.allocations|
  {
    seq(|ids|, k requires 0 <= k < |ids| => ViewAt(bk, ids[k]))
  }

  lemma PickedIsInRange(keys: seq<nat>, k: nat)
    ensures forall j | 0 <= j < |Pick(keys, k)| :: Pick(keys, k)[j] < |keys|
  {
    forall j | 0 <= j < |Pick(keys, k)| ensures Pick(keys, k)[j] < |keys| {
      assert Pick(keys, k)[j] in Pick(keys, k);
    }
  }

  /** The net active amount that one row's own allocations show. */
  function AllocatedFrom(bk: Books, p: nat): int {
    PickedIsInRange(PaymentKeys(bk.allocations), p);
    NetActive(AllocationViews(bk, Pick(PaymentKeys(bk.allocations), p)))
  }

  function AllocatedTo(bk: Books, i: nat): int {
    PickedIsInRange(InstallmentKeys(bk.allocations), i);
    NetActive(AllocationViews(bk, Pick(InstallmentKeys(bk.allocations), i)))
  }

  function PaymentsOf(bk: Books, b: nat): (ps: seq<nat>)
    ensures forall k | 0 <= k < |ps| :: ps[k] < |bk.payments|
  {
    PickedIsInRange(PaymentBookings(bk), b);
    Pick(PaymentBookings(bk), b)
  }

  /** Net confirmed amount paid, as the booking summary folds it. */
  function Paid(bk: Books, b: nat): nat {
    NetConfirmedPaid(PaymentViews(bk, PaymentsOf(bk, b)))
  }

  /** derivedUnallocated of one payment row. */
  function Unallocated(bk: Books, p: nat): int
    requires p < |bk.payments|
  {
    NetContribution(PaymentAt(bk, p)) - AllocatedFrom(bk, p)
  }

  function ContributionColumn(bk: Books, ps: seq<nat>): (column: seq<int>)
    requires forall k | 0 <= k < |ps| :: ps[k] < |bk.payments|
  {
    seq(|ps|, k requires 0 <= k < |ps| => NetContribution(PaymentAt(bk, ps[k])))
  }

  function UnallocatedColumn(bk: Books, ps: seq<nat>): (column: seq<int>)
    requires forall k | 0 <= k < |ps| :: ps[k] < |bk.payments|
  {
    seq(|ps|, k requires 0 <= k < |ps| => Unallocated(bk, ps[k]))
  }

  function AllocatedFromColumn(bk: Books, ps: seq<nat>): (column: seq<int>) {
    seq(|ps|, k requires 0 <= k < |ps| => AllocatedFrom(bk, ps[k]))
  }

  function AllocatedToColumn(bk: Books, ids: seq<nat>): (column: seq<int>) {
    seq(|ids|, k requires 0 <= k < |ids| => AllocatedTo(bk, ids[k]))
  }

  /** The installments of one plan, each once, in any order. */
  ghost predicate AreInstallmentsOf(bk: Books, plan: nat, ids: seq<nat>) {
    NoDuplicates(ids) && forall i: nat :: i in ids <==> i < |bk.installments| && bk.installments[i].plan == plan
  }

  /** The installments of the booking's active plan; none without one. */
  ghost predicate AreActiveInstallments(bk: Books, b: nat, ids: seq<nat>) {
    if HasActivePlan(bk, b) then
      exists plan :: 0 <= plan < |bk.plans| && bk.plans[plan].booking == b && IsActive(bk.plans[plan])
                     && AreInstallmentsOf(bk, plan, ids)
    else ids == []
  }

  /** derivedUnappliedCredit of a booking row. */
  function Credit(bk: Books, b: nat, ids: seq<nat>): int {
    UnappliedCredit(Paid(bk, b), AllocatedToColumn(bk, ids))
  }

  // ---------------------------------------------------------------- folds over rows are grouped sums

  lemma {:induction false} PickedPrefix(bk: Books, keys: seq<nat>, k: nat)
    requires |keys| <= |bk.allocations|
    ensures forall j | 0 <= j < |Pick(keys, k)| :: Pick(keys, k)[j] < |bk.allocations|
    ensures NetActive(AllocationViews(bk, Pick(keys, k))) == Bucket(keys, Nets(bk)[..|keys|], k)
  {
    hide Nets, NetActive, AllocationViews;
    PickedIsInRange(keys, k);
    NoViews(bk);
    if keys != [] {
      var n := |keys| - 1;
      PickedPrefix(bk, keys[..n], k);
      assert Nets(bk)[..|keys|][..n] == Nets(bk)[..n];
      if keys[n] == k {
        assert Pick(keys, k) == Pick(keys[..n], k) + [n];
        OneMoreView(bk, Pick(keys[..n], k), n);
      } else {
        assert Pick(keys, k) == Pick(keys[..n], k);
      }
    }
  }

  lemma NoViews(bk: Books)
    ensures NetActive(AllocationViews(bk, [])) == 0 && |Nets(bk)| == |bk.allocations|
  {
  }

  lemma OneMoreView(bk: Books, ids: seq<nat>, a: nat)
    requires a < |bk.allocations| && forall j | 0 <= j < |ids| :: ids[j] < |bk.allocations|
    ensures NetActive(AllocationViews(bk, ids + [a])) == NetActive(AllocationViews(bk, ids)) + Nets(bk)[a]
  {
    hide NetOf, ViewAt;
    var views := AllocationViews(bk, ids + [a]);
    assert views[..|ids|] == AllocationViews(bk, ids);
    assert views[|ids|] == ViewAt(bk, a);
  }

  lemma FoldsAreBuckets(bk: Books)
    ensures forall p :: AllocatedFrom(bk, p) == PaymentNet(bk, p)
    ensures forall i :: AllocatedTo(bk, i) == InstallmentNet(bk, i)
  {
    assert Nets(bk)[..|bk.allocations|] == Nets(bk);
    forall p: nat ensures AllocatedFrom(bk, p) == PaymentNet(bk, p) {
      PickedPrefix(bk, PaymentKeys(bk.allocations), p);
    }
    forall i: nat ensures AllocatedTo(bk, i) == InstallmentNet(bk, i) {
      PickedPrefix(bk, InstallmentKeys(bk.allocations), i);
    }
  }

  lemma {:induction false} PaidIsColumnSum(bk: Books, ps: seq<nat>)
    requires forall k | 0 <= k < |ps| :: ps[k] < |bk.payments|
    ensures NetConfirmedPaid(PaymentViews(bk, ps)) == Sum(ContributionColumn(bk, ps))
  {
    if ps != [] {
      var n := |ps| - 1;
      PaidIsColumnSum(bk, ps[..n]);
      assert PaymentViews(bk, ps)[..n] == PaymentViews(bk, ps[..n]);
      assert ContributionColumn(bk, ps)[..n] == ContributionColumn(bk, ps[..n]);
    }
  }

  /** A booking's allocated total, counted payment by payment, is the total of its allocations. */
  lemma ByPayment(bk: Books, b: nat)
    requires RefsOk(bk)
    ensures Sum(AllocatedFromColumn(bk, PaymentsOf(bk, b)))
            == Bucket(Compose(PaymentBookings(bk), PaymentKeys(bk.allocations)), Nets(bk), b)
  {
    FoldsAreBuckets(bk);
    SumOfBuckets(PaymentBookings(bk), PaymentKeys(bk.allocations), Nets(bk), b);
    assert AllocatedFromColumn(bk, PaymentsOf(bk, b)) == Buckets(PaymentKeys(bk.allocations), Nets(bk), PaymentsOf(bk, b));
  }

  function AmountTo(bk: Books): nat -> int {
    (i: nat) => AllocatedTo(bk, i)
  }

  lemma {:induction false} ColumnTotal(bk: Books, ids: seq<nat>)
    ensures Sum(AllocatedToColumn(bk, ids)) == Total(ids, AmountTo(bk))
  {
    if ids != [] {
      var n := |ids| - 1;
      ColumnTotal(bk, ids[..n]);
      assert AllocatedToColumn(bk, ids)[..n] == AllocatedToColumn(bk, ids[..n]);
    }
  }

  lemma {:induction false} PickAscends(keys: seq<nat>, k: nat)
    ensures NoDuplicates(Pick(keys, k))
  {
    if keys != [] {
      var n := |keys| - 1;
      PickAscends(keys[..n], k);
      assert forall j | 0 <= j < |Pick(keys[..n], k)| :: Pick(keys[..n], k)[j] in Pick(keys[..n], k);
    }
  }

  /** A plan's allocated total, counted installment by installment in any order, is the total of its allocations. */
  lemma ByInstallment(bk: Books, plan: nat, ids: seq<nat>)
    requires RefsOk(bk) && AreInstallmentsOf(bk, plan, ids)
    ensures Sum(AllocatedToColumn(bk, ids))
            == Bucket(Compose(InstallmentPlans(bk), InstallmentKeys(bk.allocations)), Nets(bk), plan)
  {
    var picked := Pick(InstallmentPlans(bk), plan);
    FoldsAreBuckets(bk);
    SumOfBuckets(InstallmentPlans(bk), InstallmentKeys(bk.allocations), Nets(bk), plan);
    assert AllocatedToColumn(bk, picked) == Buckets(InstallmentKeys(bk.allocations), Nets(bk), picked);
    PickAscends(InstallmentPlans(bk), plan);
    ColumnTotal(bk, ids);
    ColumnTotal(bk, picked);
    SameTotal(ids, picked, AmountTo(bk));
  }

  /** The sum over the one active plan's installments is the sum over the booking's payments. */
  lemma SameBuckets(bk: Books, b: nat, plan: nat)
    requires Inv(bk) && plan < |bk.plans| && bk.plans[plan].booking == b && IsActive(bk.plans[plan])
    ensures Bucket(Compose(InstallmentPlans(bk), InstallmentKeys(bk.allocations)), Nets(bk), plan)
            == Bucket(Compose(PaymentBookings(bk), PaymentKeys(bk.allocations)), Nets(bk), b)
  {
    hide PlansOk, RowsOk, CapsOk, Nets, Bucket;
    NetsAreAsMany(bk);
    var byBooking := Compose(PaymentBookings(bk), PaymentKeys(bk.allocations));
    var byPlan := Compose(InstallmentPlans(bk), InstallmentKeys(bk.allocations));
    forall a | 0 <= a < |bk.allocations| ensures byPlan[a] == plan <==> byBooking[a] == b {
      PlanOfAllocation(bk, b, plan, a);
    }
    BucketRekey(byPlan, byBooking, Nets(bk), plan, b);
  }

  lemma NoBuckets(bk: Books, b: nat)
    requires Inv(bk) && !HasActivePlan(bk, b)
    ensures Bucket(Compose(PaymentBookings(bk), PaymentKeys(bk.allocations)), Nets(bk), b) == 0
  {
    hide PlansOk, RowsOk, CapsOk, Nets, Bucket;
    NetsAreAsMany(bk);
    var byBooking := Compose(PaymentBookings(bk), PaymentKeys(bk.allocations));
    forall a | 0 <= a < |bk.allocations| ensures byBooking[a] != b {
      AllocationHasActivePlan(bk, b, a);
    }
    BucketOfZeros(byBooking, Nets(bk), b);
  }

  /** Counting a booking's net active allocations by installment or by payment gives the same total. */
  lemma SameAllocatedTotal(bk: Books, b: nat, ids: seq<nat>)
    requires Inv(bk) && AreActiveInstallments(bk, b, ids)
    ensures Sum(AllocatedToColumn(bk, ids)) == Sum(AllocatedFromColumn(bk, PaymentsOf(bk, b)))
  {
    hide RefsOk, PlansOk, RowsOk, CapsOk, Nets, Bucket, Compose, AllocatedFromColumn, AreInstallmentsOf;
    ByPayment(bk, b);
    if HasActivePlan(bk, b) {
      var plan :| 0 <= plan < |bk.plans| && bk.plans[plan].booking == b && IsActive(bk.plans[plan])
                  && AreInstallmentsOf(bk, plan, ids);
      ByInstallment(bk, plan, ids);
      SameBuckets(bk, b, plan);
    } else {
      NoBuckets(bk, b);
    }
  }

  lemma NetsAreAsMany(bk: Books)
    ensures |Nets(bk)| == |bk.allocations|
  {
  }

  /** The one active plan of a booking carries every allocation of the booking's payments, and no other. */
  lemma PlanOfAllocation(bk: Books, b: nat, plan: nat, a: nat)
    requires Inv(bk) && plan < |bk.plans| && bk.plans[plan].booking == b && IsActive(bk.plans[plan]) && a < |bk.allocations|
    ensures bk.allocations[a].installment < |bk.installments| && bk.allocations[a].payment < |bk.payments|
    ensures bk.installments[bk.allocations[a].installment].plan == plan <==> bk.payments[bk.allocations[a].payment].booking == b
  {
    assert AllocationOk(bk, a);
  }

  lemma AllocationHasActivePlan(bk: Books, b: nat, a: nat)
    requires Inv(bk) && !HasActivePlan(bk, b) && a < |bk.allocations|
    ensures bk.allocations[a].payment < |bk.payments| && bk.payments[bk.allocations[a].payment].booking != b
  {
    assert AllocationOk(bk, a);
  }

  // ---------------------------------------------------------------- conservation across the datasets

  /**
   * Cross-dataset conservation: the booking's net paid is the sum of its payments' contributions, and its
   * unapplied credit is the sum of what its payments show as unallocated.
   */
  lemma CreditIsUnallocated(bk: Books, b: nat, ids: seq<nat>)
    requires Inv(bk) && AreActiveInstallments(bk, b, ids)
    ensures Paid(bk, b) == Sum(ContributionColumn(bk, PaymentsOf(bk, b)))
    ensures Credit(bk, b, ids) == Sum(UnallocatedColumn(bk, PaymentsOf(bk, b)))
  {
    var ps := PaymentsOf(bk, b);
    PaidIsColumnSum(bk, ps);
    SameAllocatedTotal(bk, b, ids);
    SumPlus(UnallocatedColumn(bk, ps), AllocatedFromColumn(bk, ps), ContributionColumn(bk, ps));
  }

  lemma BucketAtLeastNone(keys: seq<nat>, vals: seq<int>, k: nat)
    requires |keys| == |vals| && forall i | 0 <= i < |vals| :: vals[i] >= 0
    ensures Bucket(keys, vals, k) >= 0
  {
    if keys != [] {
      BucketAtLeastNone(keys[..|keys| - 1], vals[..|vals| - 1], k);
    }
  }

  lemma {:induction false} BucketAtLeastOne(keys: seq<nat>, vals: seq<int>, i: nat)
    requires |keys| == |vals| && i < |keys| && forall j | 0 <= j < |vals| :: vals[j] >= 0
    ensures Bucket(keys, vals, keys[i]) >= vals[i]
  {
    var n := |keys| - 1;
    BucketAtLeastNone(keys[..n], vals[..n], keys[i]);
    if i < n {
      BucketAtLeastOne(keys[..n], vals[..n], i);
    }
  }

  lemma NetsAreNonNegative(bk: Books)
    requires Inv(bk)
    ensures forall a | 0 <= a < |bk.allocations| :: Nets(bk)[a] >= 0
  {
    forall a | 0 <= a < |bk.allocations| ensures Nets(bk)[a] >= 0 {
      assert ThroughOk(bk, a);
    }
  }

  lemma {:induction false} SumNonNegative(xs: seq<int>)
    requires forall i | 0 <= i < |xs| :: xs[i] >= 0
    ensures Sum(xs) >= 0
  {
    if xs != [] {
      SumNonNegative(xs[..|xs| - 1]);
    }
  }

  /** What the row shapers refuse to print: the five derived columns below zero, refunds above the amount, no currency. */
  ghost predicate ExportChecksPass(bk: Books) {
    && (forall p | 0 <= p < |bk.payments| ::
          && RefundTotal(bk.refunds, p) <= bk.payments[p].amount
          && AllocatedFrom(bk, p) >= 0
          && Unallocated(bk, p) >= 0
          && bk.payments[p].booking < |bk.bookings| && bk.bookings[bk.payments[p].booking].currency.Some?)
    && (forall a | 0 <= a < |bk.allocations| :: NetActive([ViewAt(bk, a)]) >= 0)
    && (forall i | 0 <= i < |bk.installments| :: AllocatedTo(bk, i) >= 0)
    && (forall i | 0 <= i < |bk.installments| && bk.installments[i].plan < |bk.plans| && IsActive(bk.plans[bk.installments[i].plan]) ::
          var b := bk.plans[bk.installments[i].plan].booking;
          b < |bk.bookings| && bk.bookings[b].currency.Some?)
    && (forall b, ids | AreActiveInstallments(bk, b, ids) :: Credit(bk, b, ids) >= 0)
  }

  /** No export of any reachable ledger meets a failing integrity check. */
  lemma ExportChecksNeverFire(events: seq<Event>)
    requires AllWellFormed(events)
    ensures ExportChecksPass(Run(EMPTY, events))
  {
    LedgerStaysConsistent(events);
    InvPassesChecks(Run(EMPTY, events));
  }

  lemma PaymentChecks(bk: Books, p: nat)
    requires Inv(bk) && p < |bk.payments|
    ensures RefundTotal(bk.refunds, p) <= bk.payments[p].amount
    ensures AllocatedFrom(bk, p) >= 0 && Unallocated(bk, p) >= 0
  {
    hide PlansOk;
    assert PaymentOk(bk, p);
    FoldsAreBuckets(bk);
    NetsAreNonNegative(bk);
    BucketAtLeastNone(PaymentKeys(bk.allocations), Nets(bk), p);
    assert PaymentNet(bk, p) <= NetContribution(PaymentAt(bk, p));
  }

  lemma AllocationChecks(bk: Books, a: nat)
    requires Inv(bk) && a < |bk.allocations|
    ensures NetActive([ViewAt(bk, a)]) >= 0
  {
    NetsAreNonNegative(bk);
    assert NetActive([ViewAt(bk, a)]) == Nets(bk)[a];
  }

  lemma InstallmentChecks(bk: Books, i: nat)
    requires Inv(bk)
    ensures AllocatedTo(bk, i) >= 0
  {
    FoldsAreBuckets(bk);
    NetsAreNonNegative(bk);
    BucketAtLeastNone(InstallmentKeys(bk.allocations), Nets(bk), i);
  }

  lemma CreditCheck(bk: Books, b: nat, ids: seq<nat>)
    requires Inv(bk) && AreActiveInstallments(bk, b, ids)
    ensures Credit(bk, b, ids) >= 0
  {
    CreditIsUnallocated(bk, b, ids);
    forall k | 0 <= k < |PaymentsOf(bk, b)| ensures UnallocatedColumn(bk, PaymentsOf(bk, b))[k] >= 0 {
      PaymentChecks(bk, PaymentsOf(bk, b)[k]);
    }
    SumNonNegative(UnallocatedColumn(bk, PaymentsOf(bk, b)));
  }

  lemma CurrencyIsSet(bk: Books)
    requires RefsOk(bk) && PlansOk(bk)
    ensures forall p | 0 <= p < |bk.payments| ::
              bk.payments[p].booking < |bk.bookings| && bk.bookings[bk.payments[p].booking].currency.Some?
    ensures forall j | 0 <= j < |bk.plans| && IsActive(bk.plans[j]) ::
              bk.plans[j].booking < |bk.bookings| && bk.bookings[bk.plans[j].booking].currency.Some?
  {
    forall j | 0 <= j < |bk.plans| && IsActive(bk.plans[j])
      ensures bk.plans[j].booking < |bk.bookings| && bk.bookings[bk.plans[j].booking].currency.Some?
    {
      assert PlanOk(bk, j);
    }
  }

  lemma InvPassesChecks(bk: Books)
    requires Inv(bk)
    ensures ExportChecksPass(bk)
  {
    hide RefsOk, PlansOk, RowsOk, CapsOk;
    forall p | 0 <= p < |bk.payments|
      ensures RefundTotal(bk.refunds, p) <= bk.payments[p].amount && AllocatedFrom(bk, p) >= 0 && Unallocated(bk, p) >= 0
    {
      PaymentChecks(bk, p);
    }
    forall a | 0 <= a < |bk.allocations| ensures NetActive([ViewAt(bk, a)]) >= 0 {
      AllocationChecks(bk, a);
    }
    forall i | 0 <= i < |bk.installments| ensures AllocatedTo(bk, i) >= 0 {
      InstallmentChecks(bk, i);
    }
    forall b, ids | AreActiveInstallments(bk, b, ids) ensures Credit(bk, b, ids) >= 0 {
      CreditCheck(bk, b, ids);
    }
    CurrencyIsSet(bk);
  }

  /** A fully refunded payment keeps nothing allocated, on any of its allocations. */
  lemma RefundedKeepsNoAllocation(bk: Books, a: nat)
    requires Inv(bk) && a < |bk.allocations| && StatusOf(bk.payments, bk.allocations[a].payment).Refunded?
    ensures NetOf(ViewAt(bk, a)) == 0
  {
    var p := bk.allocations[a].payment;
    assert AllocationOk(bk, a) && PaymentOk(bk, p);
    NetsAreNonNegative(bk);
    BucketAtLeastOne(PaymentKeys(bk.allocations), Nets(bk), a);
    assert PaymentNet(bk, p) <= NetContribution(PaymentAt(bk, p));
  }

  // ---------------------------------------------------------------- plans

  /** One active plan a booking; approved plans add up to the booking total; withdrawn plans carry no allocation. */
  lemma PlanLaws(bk: Books)
    requires Inv(bk)
    ensures forall i, j | 0 <= i < |bk.plans| && 0 <= j < |bk.plans| && i != j && IsActive(bk.plans[i]) && IsActive(bk.plans[j]) ::
              bk.plans[i].booking != bk.plans[j].booking
    ensures forall i | 0 <= i < |bk.plans| && bk.plans[i].status.Approved? ::
              bk.plans[i].booking < |bk.bookings| && bk.bookings[bk.plans[i].booking].total == Some(PlanTotal(bk.installments, i))
    ensures forall i | 0 <= i < |bk.plans| && !bk.plans[i].status.Approved? :: !IsTargeted(bk, i)
  {
    forall i | 0 <= i < |bk.plans| && bk.plans[i].status.Approved?
      ensures bk.plans[i].booking < |bk.bookings| && bk.bookings[bk.plans[i].booking].total == Some(PlanTotal(bk.installments, i))
    {
      assert PlanOk(bk, i);
    }
    forall a | 0 <= a < |bk.allocations|
      ensures var plan := bk.installments[bk.allocations[a].installment].plan;
              plan < |bk.plans| && bk.plans[plan].status.Approved?
    {
      assert AllocationOk(bk, a);
    }
  }

  /** No operation takes approval back, moves a plan to another booking, or revives a withdrawn plan. */
  lemma PlanStatusIsFinal(bk: Books, e: Event, i: nat)
    requires i < |bk.plans|
    ensures i < |Perform(bk, e).0.plans| && Perform(bk, e).0.plans[i].booking == bk.plans[i].booking
    ensures !bk.plans[i].status.Proposed? ==> Perform(bk, e).0.plans[i] == bk.plans[i]
  {
  }

  /** No operation adds, drops or reprices an installment of an existing plan. */
  lemma PlanItemsAreFixed(bk: Books, e: Event, i: nat)
    requires i < |bk.plans|
    ensures PlanTotal(Perform(bk, e).0.installments, i) == PlanTotal(bk.installments, i)
    ensures bk.installments <= Perform(bk, e).0.installments
  {
    hide PlanTotal, StructureOk;
    if e.ProposeEvent? && Perform(bk, e).1.Applied? {
      PlanTotalOfOthers(bk.installments, InstallmentsOf(|bk.plans|, e.items), i);
    }
  }

  /** A plan keeps its booking, its rows and what they add up to; once approved or withdrawn it never changes again. */
  lemma {:induction false} DecidedForever(bk: Books, later: seq<Event>, i: nat)
    requires i < |bk.plans|
    ensures var now := Run(bk, later);
            && i < |now.plans| && now.plans[i].booking == bk.plans[i].booking
            && (!bk.plans[i].status.Proposed? ==> now.plans[i] == bk.plans[i])
            && bk.installments <= now.installments && PlanTotal(now.installments, i) == PlanTotal(bk.installments, i)
  {
    hide Perform;
    if later != [] {
      var n := |later| - 1;
      DecidedForever(bk, later[..n], i);
      PlanStatusIsFinal(Run(bk, later[..n]), later[n], i);
      PlanItemsAreFixed(Run(bk, later[..n]), later[n], i);
    }
  }

  /** An approved plan stays approved, and keeps adding up to its booking's total, in every later state. */
  lemma ApprovedForever(bk: Books, later: seq<Event>, i: nat)
    requires Inv(bk) && AllWellFormed(later) && i < |bk.plans| && bk.plans[i].status.Approved?
    ensures var now := Run(bk, later);
            && i < |now.plans| && now.plans[i] == bk.plans[i]
            && now.plans[i].booking < |now.bookings| && bk.plans[i].booking < |bk.bookings|
            && now.bookings[now.plans[i].booking].total == bk.bookings[bk.plans[i].booking].total
            && now.bookings[now.plans[i].booking].total == Some(PlanTotal(now.installments, i))
  {
    hide Inv, Perform;
    DecidedForever(bk, later, i);
    RunKeepsInv(bk, later);
    PlanLaws(bk);
    PlanLaws(Run(bk, later));
  }

  /** The booking an operation works on, once its ids are known to exist. */
  function BookingOf(bk: Books, e: Event): Option<nat> {
    match e
    case SetFinancialsEvent(b, _, _, _) => Some(b)
    case ProposeEvent(b, _) => Some(b)
    case ApproveEvent(plan) => if plan < |bk.plans| then Some(bk.plans[plan].booking) else None
    case RecordEvent(b, _, _) => Some(b)
    case ConfirmEvent(p, _) => if p < |bk.payments| then Some(bk.payments[p].booking) else None
    case AllocateEvent(p, _, _, _) => if p < |bk.payments| then Some(bk.payments[p].booking) else None
    case _ => None
  }

  /** On a cancelled booking nothing is set, proposed, approved, recorded, confirmed or allocated. */
  lemma CancelledBookingTakesNothingNew(bk: Books, e: Event)
    requires RefsOk(bk) && BookingOf(bk, e).Some?
    requires BookingOf(bk, e).value < |bk.bookings| && bk.bookings[BookingOf(bk, e).value].cancelled
    ensures !Perform(bk, e).1.Applied? && Perform(bk, e).0 == bk
  {
    hide Bucket, Nets, RawNets;
  }

  /** What may still happen to a payment: it ends, or stays as it is. */
  predicate OnlyEnds(before: PaymentStatus, now: PaymentStatus) {
    now == before || now.Refunded? || now.Reversed?
  }

  predicate AllocatesFrom(bk: Books, a: nat, b: nat) {
    a < |bk.allocations| && bk.allocations[a].payment < |bk.payments| && bk.payments[bk.allocations[a].payment].booking == b
  }

  /** From one state to the next nothing of booking b was set, proposed, approved, recorded, confirmed or allocated. */
  ghost predicate NothingNew(bk: Books, now: Books, b: nat) {
    && b < |bk.bookings| && b < |now.bookings| && now.bookings[b] == bk.bookings[b]
    && (forall i | 0 <= i < |now.plans| && now.plans[i].booking == b ::
          && i < |bk.plans|
          && (now.plans[i] == bk.plans[i] || (bk.plans[i] == Plan(b, Proposed) && now.plans[i] == Plan(b, Withdrawn))))
    && (forall p | 0 <= p < |now.payments| && now.payments[p].booking == b ::
          && p < |bk.payments| && OnlyEnds(bk.payments[p].status, now.payments[p].status)
          && now.payments[p] == bk.payments[p].(status := now.payments[p].status))
    && (forall a | 0 <= a < |now.allocations| && AllocatesFrom(now, a, b) ::
          && a < |bk.allocations| && now.allocations[a].(reversed := bk.allocations[a].reversed) == bk.allocations[a]
          && (bk.allocations[a].reversed ==> now.allocations[a].reversed))
  }

  predicate Reopens(e: Event, b: nat) {
    e.SetCancelledEvent? && e.booking == b && !e.cancelled
  }

  lemma NothingNewAtFirst(bk: Books, b: nat)
    requires b < |bk.bookings|
    ensures NothingNew(bk, bk, b)
  {
  }

  /** Where plans, payments and allocations stay, and the booking's own row. */
  lemma OtherBookings(bk: Books, now: Books, b: nat)
    requires b < |bk.bookings| && now == bk.(bookings := now.bookings) && b < |now.bookings| && now.bookings[b] == bk.bookings[b]
    ensures NothingNew(bk, now, b)
  {
  }

  lemma AddBookingBringsNothingNew(bk: Books, b: nat)
    requires b < |bk.bookings|
    ensures NothingNew(bk, AddBooking(bk).0, b)
  {
    hide NothingNew;
    OtherBookings(bk, AddBooking(bk).0, b);
  }

  lemma SetCancelledBringsNothingNew(bk: Books, b: nat, target: nat, cancelled: bool)
    requires b < |bk.bookings| && bk.bookings[b].cancelled && (target == b ==> cancelled)
    ensures NothingNew(bk, SetCancelled(bk, target, cancelled).0, b)
  {
    hide NothingNew;
    OtherBookings(bk, SetCancelled(bk, target, cancelled).0, b);
  }

  lemma SetFinancialsBringsNothingNew(bk: Books, b: nat, target: nat, total: int, currency: string, hasReason: bool)
    requires b < |bk.bookings| && bk.bookings[b].cancelled
    ensures NothingNew(bk, SetFinancials(bk, target, total, currency, hasReason).0, b)
  {
    hide NothingNew, HasActivePlan, HasPayment;
    OtherBookings(bk, SetFinancials(bk, target, total, currency, hasReason).0, b);
  }

  lemma ProposeBringsNothingNew(bk: Books, b: nat, target: nat, items: seq<Item>)
    requires b < |bk.bookings| && bk.bookings[b].cancelled
    ensures NothingNew(bk, Propose(bk, target, items).0, b)
  {
    hide StructureOk, HasActivePlan, InstallmentsOf;
  }

  /** Another booking's plan, or a withdrawal of this booking's proposed one. */
  lemma MovedPlan(bk: Books, plan: nat, status: PlanStatus, b: nat)
    requires b < |bk.bookings| && plan < |bk.plans|
    requires bk.plans[plan].booking == b ==> bk.plans[plan].status.Proposed? && status.Withdrawn?
    ensures NothingNew(bk, SetPlan(bk, plan, status), b)
  {
  }

  lemma ApproveBringsNothingNew(bk: Books, b: nat, plan: nat)
    requires b < |bk.bookings| && bk.bookings[b].cancelled
    ensures NothingNew(bk, Approve(bk, plan).0, b)
  {
    hide NothingNew, SetPlan, PlanTotal;
    if Approve(bk, plan).1.Applied? {
      MovedPlan(bk, plan, Approved, b);
    } else {
      NothingNewAtFirst(bk, b);
    }
  }

  lemma WithdrawBringsNothingNew(bk: Books, b: nat, plan: nat)
    requires b < |bk.bookings|
    ensures NothingNew(bk, Withdraw(bk, plan).0, b)
  {
    hide NothingNew, SetPlan, IsTargeted;
    if Withdraw(bk, plan).1.Applied? {
      MovedPlan(bk, plan, Withdrawn, b);
    } else {
      NothingNewAtFirst(bk, b);
    }
  }

  /** A payment of another booking is added; the allocations name earlier ones. */
  lemma AddedPayment(bk: Books, now: Books, b: nat, payment: Payment)
    requires RefsOk(bk) && b < |bk.bookings| && payment.booking != b
    requires now == bk.(payments := bk.payments + [payment], statusKeys := now.statusKeys)
    ensures NothingNew(bk, now, b)
  {
  }

  lemma RecordBringsNothingNew(bk: Books, b: nat, target: nat, amount: int, key: Key)
    requires RefsOk(bk) && b < |bk.bookings| && bk.bookings[b].cancelled
    ensures NothingNew(bk, Record(bk, target, amount, key).0, b)
  {
    hide NothingNew, RefsOk;
    var (now, outcome) := Record(bk, target, amount, key);
    if outcome.Applied? {
      AddedPayment(bk, now, b, Payment(target, amount, Pending));
    } else {
      NothingNewAtFirst(bk, b);
    }
  }

  /** Another payment's status, or an end of this booking's own. */
  lemma MovedPayment(bk: Books, p: nat, next: PaymentStatus, key: Key, b: nat)
    requires b < |bk.bookings| && p < |bk.payments| && (bk.payments[p].booking == b ==> next.Refunded? || next.Reversed?)
    ensures NothingNew(bk, Transition(bk, p, next, key), b)
  {
  }

  lemma ConfirmBringsNothingNew(bk: Books, b: nat, p: nat, key: Key)
    requires b < |bk.bookings| && bk.bookings[b].cancelled
    ensures NothingNew(bk, ConfirmPayment(bk, p, key).0, b)
  {
    hide NothingNew, Transition;
    if ConfirmPayment(bk, p, key).1.Applied? {
      MovedPayment(bk, p, Confirmed, key, b);
    } else {
      NothingNewAtFirst(bk, b);
    }
  }

  lemma ReverseBringsNothingNew(bk: Books, b: nat, p: nat, key: Key)
    requires b < |bk.bookings|
    ensures NothingNew(bk, ReversePayment(bk, p, key).0, b)
  {
    hide NothingNew, Transition;
    if ReversePayment(bk, p, key).1.Applied? {
      MovedPayment(bk, p, Reversed, key, b);
    } else {
      NothingNewAtFirst(bk, b);
    }
  }

  lemma RefundBringsNothingNew(bk: Books, b: nat, p: nat, amount: int, allocation: Option<nat>, key: Key)
    requires b < |bk.bookings|
    ensures NothingNew(bk, RefundPayment(bk, p, amount, allocation, key).0, b)
  {
    hide RefundPayment;
    RefundShape(bk, p, amount, allocation, key);
  }

  /** A refund touches no booking, plan or allocation, and of payments at most the status of its own. */
  lemma RefundShape(bk: Books, p: nat, amount: int, allocation: Option<nat>, key: Key)
    ensures var now := RefundPayment(bk, p, amount, allocation, key).0;
            && now.bookings == bk.bookings && now.plans == bk.plans && now.allocations == bk.allocations
            && (now.payments == bk.payments
                || (p < |bk.payments| && now.payments == bk.payments[p := bk.payments[p].(status := Refunded)]))
  {
    hide RawPaymentNet, RefundTotal, Through, RefundsAllocation;
  }

  lemma AllocateBringsNothingNew(bk: Books, b: nat, p: nat, i: nat, amount: int, key: Key)
    requires b < |bk.bookings| && bk.bookings[b].cancelled
    ensures NothingNew(bk, Allocate(bk, p, i, amount, key).0, b)
  {
    hide NothingNew, RawPaymentNet, InstallmentNet, NetContribution, RefundTotal;
    var (now, outcome) := Allocate(bk, p, i, amount, key);
    if outcome.Applied? {
      AddedAllocation(bk, now, b, Allocation(p, i, amount, false));
    } else {
      NothingNewAtFirst(bk, b);
    }
  }

  lemma AddedAllocation(bk: Books, now: Books, b: nat, al: Allocation)
    requires b < |bk.bookings| && al.payment < |bk.payments| && bk.payments[al.payment].booking != b
    requires now == bk.(allocations := bk.allocations + [al], allocationKeys := now.allocationKeys)
    ensures NothingNew(bk, now, b)
  {
  }

  lemma ReverseAllocationBringsNothingNew(bk: Books, b: nat, a: nat, key: Key)
    requires b < |bk.bookings|
    ensures NothingNew(bk, ReverseAllocation(bk, a, key).0, b)
  {
    hide HasRefund;
  }

  lemma StepBringsNothingNew(bk: Books, e: Event, b: nat)
    requires RefsOk(bk) && b < |bk.bookings| && bk.bookings[b].cancelled && !Reopens(e, b)
    ensures NothingNew(bk, Perform(bk, e).0, b)
  {
    hide NothingNew, RefsOk;
    hide AddBooking, SetCancelled, SetFinancials, Propose, Approve, Withdraw;
    hide Record, ConfirmPayment, ReversePayment, RefundPayment, Allocate, ReverseAllocation;
    match e
    case AddBookingEvent => AddBookingBringsNothingNew(bk, b);
    case SetCancelledEvent(x, cancelled) => SetCancelledBringsNothingNew(bk, b, x, cancelled);
    case SetFinancialsEvent(x, total, currency, hasReason) => SetFinancialsBringsNothingNew(bk, b, x, total, currency, hasReason);
    case ProposeEvent(x, items) => ProposeBringsNothingNew(bk, b, x, items);
    case ApproveEvent(plan) => ApproveBringsNothingNew(bk, b, plan);
    case WithdrawEvent(plan) => WithdrawBringsNothingNew(bk, b, plan);
    case RecordEvent(x, amount, key) => RecordBringsNothingNew(bk, b, x, amount, key);
    case ConfirmEvent(p, key) => ConfirmBringsNothingNew(bk, b, p, key);
    case ReverseEvent(p, key) => ReverseBringsNothingNew(bk, b, p, key);
    case RefundEvent(p, amount, allocation, key) => RefundBringsNothingNew(bk, b, p, amount, allocation, key);
    case AllocateEvent(p, i, amount, key) => AllocateBringsNothingNew(bk, b, p, i, amount, key);
    case ReverseAllocationEvent(a, key) => ReverseAllocationBringsNothingNew(bk, b, a, key);
  }

  lemma NothingNewChains(bk: Books, mid: Books, now: Books, b: nat)
    requires NothingNew(bk, mid, b) && NothingNew(mid, now, b)
    ensures NothingNew(bk, now, b)
  {
  }

  /** While a cancelled booking is not reopened nothing new comes to it, in any number of later steps. */
  lemma {:induction false} CancelledBookingStaysClosed(bk: Books, later: seq<Event>, b: nat)
    requires Inv(bk) && AllWellFormed(later) && b < |bk.bookings| && bk.bookings[b].cancelled
    requires forall n | 0 <= n < |later| :: !Reopens(later[n], b)
    ensures NothingNew(bk, Run(bk, later), b)
  {
    hide Perform, NothingNew, RefsOk, PlansOk, RowsOk, CapsOk, WellFormed, Reopens;
    if later == [] {
      NothingNewAtFirst(bk, b);
    } else {
      var n := |later| - 1;
      CancelledBookingStaysClosed(bk, later[..n], b);
      RunKeepsInv(bk, later[..n]);
      StillCancelled(bk, Run(bk, later[..n]), b);
      StepBringsNothingNew(Run(bk, later[..n]), later[n], b);
      NothingNewChains(bk, Run(bk, later[..n]), Run(bk, later), b);
    }
  }

  lemma StillCancelled(bk: Books, now: Books, b: nat)
    requires NothingNew(bk, now, b)
    ensures b < |now.bookings| && now.bookings[b] == bk.bookings[b]
  {
  }

  /** The corrupt-refunds backstop of allocation never fires. */
  lemma AllocationNeverMeetsCorruptRefunds(bk: Books, e: Event)
    requires Inv(bk) && e.AllocateEvent?
    ensures Perform(bk, e).1 != Refused(IntegrityFailure)
  {
    if e.payment < |bk.payments| {
      assert PaymentOk(bk, e.payment);
    }
  }

  // ---------------------------------------------------------------- retries

  /** The key table holds this very request. */
  predicate Done(bk: Books, e: Event) {
    match e
    case RecordEvent(b, amount, key) =>
      && b < |bk.bookings|
      && key in bk.statusKeys
      && var change := bk.statusKeys[key];
         && change.previous.None? && change.next.Pending? && change.payment < |bk.payments|
         && bk.payments[change.payment].booking == b && bk.payments[change.payment].amount == amount
    case ConfirmEvent(p, key) =>
      key in bk.statusKeys && bk.statusKeys[key].payment == p && bk.statusKeys[key].next.Confirmed?
    case ReverseEvent(p, key) =>
      key in bk.statusKeys && bk.statusKeys[key].payment == p && bk.statusKeys[key].next.Reversed?
    case RefundEvent(p, amount, allocation, key) =>
      && key in bk.refundKeys && bk.refundKeys[key] < |bk.refunds|
      && bk.refunds[bk.refundKeys[key]] == Refund(p, amount, allocation)
    case AllocateEvent(p, i, amount, key) =>
      && key in bk.allocationKeys && bk.allocationKeys[key] < |bk.allocations|
      && var al := bk.allocations[bk.allocationKeys[key]];
         al.payment == p && al.installment == i && al.amount == amount
    case ReverseAllocationEvent(a, key) => key in bk.reversalKeys && bk.reversalKeys[key] == a
    case _ => false
  }

  predicate Keyed(e: Event) {
    e.RecordEvent? || e.ConfirmEvent? || e.ReverseEvent? || e.RefundEvent? || e.AllocateEvent? || e.ReverseAllocationEvent?
  }

  /** Key tables and what their rows identify only ever gain entries. */
  ghost predicate Extends(bk: Books, bk': Books) {
    && |bk.bookings| <= |bk'.bookings|
    && (forall k | k in bk.statusKeys :: k in bk'.statusKeys && bk'.statusKeys[k] == bk.statusKeys[k])
    && |bk.payments| <= |bk'.payments|
    && (forall p | 0 <= p < |bk.payments| ::
          bk'.payments[p].booking == bk.payments[p].booking && bk'.payments[p].amount == bk.payments[p].amount)
    && bk.refunds <= bk'.refunds
    && (forall k | k in bk.refundKeys && bk.refundKeys[k] < |bk.refunds| ::
          k in bk'.refundKeys && bk'.refundKeys[k] == bk.refundKeys[k])
    && |bk.allocations| <= |bk'.allocations|
    && (forall a | 0 <= a < |bk.allocations| :: bk'.allocations[a].(reversed := bk.allocations[a].reversed) == bk.allocations[a])
    && (forall k | k in bk.allocationKeys && bk.allocationKeys[k] < |bk.allocations| ::
          k in bk'.allocationKeys && bk'.allocationKeys[k] == bk.allocationKeys[k])
    && (forall k | k in bk.reversalKeys :: k in bk'.reversalKeys && bk'.reversalKeys[k] == bk.reversalKeys[k])
  }

  lemma SameExtends(bk: Books)
    ensures Extends(bk, bk)
  {
  }

  /** Bookings, plans and installments play no part in what retries compare with. */
  lemma TermsExtend(bk: Books, now: Books)
    requires now == bk.(bookings := now.bookings, plans := now.plans, installments := now.installments)
    requires |bk.bookings| <= |now.bookings|
    ensures Extends(bk, now)
  {
  }

  /** One payment's status moves under a new key. */
  lemma TransitionExtends(bk: Books, p: nat, next: PaymentStatus, key: Key)
    requires p < |bk.payments| && key !in bk.statusKeys
    ensures Extends(bk, Transition(bk, p, next, key))
  {
  }

  lemma ExtendsChains(bk: Books, mid: Books, now: Books)
    requires Extends(bk, mid) && Extends(mid, now)
    ensures Extends(bk, now)
  {
  }

  lemma PaymentRowExtends(bk: Books, payment: Payment, change: StatusChange, key: Key)
    requires key !in bk.statusKeys
    ensures Extends(bk, bk.(payments := bk.payments + [payment], statusKeys := bk.statusKeys[key := change]))
  {
  }

  lemma RecordExtends(bk: Books, b: nat, amount: int, key: Key)
    ensures Extends(bk, Record(bk, b, amount, key).0)
  {
    hide Extends;
    if Record(bk, b, amount, key).1.Applied? {
      PaymentRowExtends(bk, Payment(b, amount, Pending), StatusChange(|bk.payments|, None, Pending), key);
    } else {
      SameExtends(bk);
    }
  }

  lemma ConfirmExtends(bk: Books, p: nat, key: Key)
    ensures Extends(bk, ConfirmPayment(bk, p, key).0)
  {
    hide Extends, Transition;
    if ConfirmPayment(bk, p, key).1.Applied? {
      TransitionExtends(bk, p, Confirmed, key);
    } else {
      SameExtends(bk);
    }
  }

  lemma ReverseExtends(bk: Books, p: nat, key: Key)
    ensures Extends(bk, ReversePayment(bk, p, key).0)
  {
    hide Extends, Transition, RefundTotal;
    if ReversePayment(bk, p, key).1.Applied? {
      TransitionExtends(bk, p, Reversed, key);
    } else {
      SameExtends(bk);
    }
  }

  /** A refund row under a new key. */
  lemma RefundRowExtends(bk: Books, r: Refund, key: Key)
    requires key !in bk.refundKeys || bk.refundKeys[key] >= |bk.refunds|
    ensures Extends(bk, bk.(refunds := bk.refunds + [r], refundKeys := bk.refundKeys[key := |bk.refunds|]))
  {
  }

  lemma RefundExtends(bk: Books, p: nat, amount: int, allocation: Option<nat>, key: Key)
    ensures Extends(bk, RefundPayment(bk, p, amount, allocation, key).0)
  {
    hide Extends, Transition, RawPaymentNet, RefundTotal, Through, RefundsAllocation;
    var (now, outcome) := RefundPayment(bk, p, amount, allocation, key);
    if outcome.Applied? {
      var r := Refund(p, amount, allocation);
      var mid := bk.(refunds := bk.refunds + [r], refundKeys := bk.refundKeys[key := |bk.refunds|]);
      RefundRowExtends(bk, r, key);
      if now != mid {
        TransitionExtends(mid, p, Refunded, key);
        ExtendsChains(bk, mid, now);
      }
    } else {
      SameExtends(bk);
    }
  }

  lemma AllocateExtends(bk: Books, p: nat, i: nat, amount: int, key: Key)
    ensures Extends(bk, Allocate(bk, p, i, amount, key).0)
  {
    hide RawPaymentNet, InstallmentNet, NetContribution, RefundTotal;
  }

  lemma ReverseAllocationExtends(bk: Books, a: nat, key: Key)
    ensures Extends(bk, ReverseAllocation(bk, a, key).0)
  {
    hide HasRefund;
  }

  /** The operations on bookings and plans. */
  lemma TermsShape(bk: Books, e: Event)
    requires e.AddBookingEvent? || e.SetCancelledEvent? || e.SetFinancialsEvent? || e.ProposeEvent? || e.ApproveEvent? || e.WithdrawEvent?
    ensures var now := Perform(bk, e).0;
            && now == bk.(bookings := now.bookings, plans := now.plans, installments := now.installments)
            && |bk.bookings| <= |now.bookings|
  {
    hide HasActivePlan, HasPayment, StructureOk, InstallmentsOf, PlanTotal, IsTargeted;
  }

  lemma PerformExtends(bk: Books, e: Event)
    ensures Extends(bk, Perform(bk, e).0)
  {
    hide Extends;
    hide Record, ConfirmPayment, ReversePayment, RefundPayment, Allocate, ReverseAllocation;
    match e
    case RecordEvent(b, amount, key) => RecordExtends(bk, b, amount, key);
    case ConfirmEvent(p, key) => ConfirmExtends(bk, p, key);
    case ReverseEvent(p, key) => ReverseExtends(bk, p, key);
    case RefundEvent(p, amount, allocation, key) => RefundExtends(bk, p, amount, allocation, key);
    case AllocateEvent(p, i, amount, key) => AllocateExtends(bk, p, i, amount, key);
    case ReverseAllocationEvent(a, key) => ReverseAllocationExtends(bk, a, key);
    case _ =>
      hide Perform;
      TermsShape(bk, e);
      TermsExtend(bk, Perform(bk, e).0);
  }

  lemma AppliedRecordIsDone(bk: Books, b: nat, amount: int, key: Key)
    requires Record(bk, b, amount, key).1.Applied?
    ensures Done(Record(bk, b, amount, key).0, RecordEvent(b, amount, key))
  {
  }

  lemma AppliedMoveIsDone(bk: Books, p: nat, key: Key)
    ensures ConfirmPayment(bk, p, key).1.Applied? ==> Done(ConfirmPayment(bk, p, key).0, ConfirmEvent(p, key))
    ensures ReversePayment(bk, p, key).1.Applied? ==> Done(ReversePayment(bk, p, key).0, ReverseEvent(p, key))
  {
    hide RefundTotal;
  }

  lemma AppliedRefundIsDone(bk: Books, p: nat, amount: int, allocation: Option<nat>, key: Key)
    requires RefundPayment(bk, p, amount, allocation, key).1.Applied?
    ensures Done(RefundPayment(bk, p, amount, allocation, key).0, RefundEvent(p, amount, allocation, key))
  {
    hide RawPaymentNet, RefundTotal, Through, RefundsAllocation;
  }

  lemma AppliedAllocationIsDone(bk: Books, p: nat, i: nat, amount: int, key: Key)
    requires Allocate(bk, p, i, amount, key).1.Applied?
    ensures Done(Allocate(bk, p, i, amount, key).0, AllocateEvent(p, i, amount, key))
  {
    hide RawPaymentNet, InstallmentNet, NetContribution, RefundTotal;
  }

  lemma AppliedReversalIsDone(bk: Books, a: nat, key: Key)
    requires ReverseAllocation(bk, a, key).1.Applied?
    ensures Done(ReverseAllocation(bk, a, key).0, ReverseAllocationEvent(a, key))
  {
    hide HasRefund;
  }

  lemma AppliedIsDone(bk: Books, e: Event)
    requires Keyed(e) && Perform(bk, e).1.Applied?
    ensures Done(Perform(bk, e).0, e)
  {
    hide Done, Record, ConfirmPayment, ReversePayment, RefundPayment, Allocate, ReverseAllocation;
    match e
    case RecordEvent(b, amount, key) => AppliedRecordIsDone(bk, b, amount, key);
    case ConfirmEvent(p, key) => AppliedMoveIsDone(bk, p, key);
    case ReverseEvent(p, key) => AppliedMoveIsDone(bk, p, key);
    case RefundEvent(p, amount, allocation, key) => AppliedRefundIsDone(bk, p, amount, allocation, key);
    case AllocateEvent(p, i, amount, key) => AppliedAllocationIsDone(bk, p, i, amount, key);
    case ReverseAllocationEvent(a, key) => AppliedReversalIsDone(bk, a, key);
  }

  lemma DoneStays(bk: Books, e: Event, other: Event)
    requires Done(bk, e)
    ensures Done(Perform(bk, other).0, e)
  {
    hide Perform;
    PerformExtends(bk, other);
  }

  lemma DoneIsAnsweredWithoutWriting(bk: Books, e: Event)
    requires Done(bk, e)
    ensures Perform(bk, e) == (bk, Unchanged)
  {
  }

  /** Once a keyed operation succeeded, repeating it at any later time changes nothing and succeeds. */
  lemma {:induction false} RetryChangesNothing(bk: Books, e: Event, later: seq<Event>)
    requires Keyed(e) && Perform(bk, e).1.Applied?
    ensures Done(Run(Perform(bk, e).0, later), e)
    ensures Perform(Run(Perform(bk, e).0, later), e) == (Run(Perform(bk, e).0, later), Unchanged)
  {
    hide Perform, Done;
    if later == [] {
      AppliedIsDone(bk, e);
    } else {
      var n := |later| - 1;
      RetryChangesNothing(bk, e, later[..n]);
      DoneStays(Run(Perform(bk, e).0, later[..n]), e, later[n]);
    }
    DoneIsAnsweredWithoutWriting(Run(Perform(bk, e).0, later), e);
  }

  // ---------------------------------------------------------------- what a cancelled booking has been paid

  lemma {:induction false} RunExtends(bk: Books, later: seq<Event>)
    ensures Extends(bk, Run(bk, later))
  {
    hide Perform;
    if later != [] {
      var n := |later| - 1;
      RunExtends(bk, later[..n]);
      PerformExtends(Run(bk, later[..n]), later[n]);
    }
  }

  lemma {:induction false} RefundsOnlyGrow(refunds: seq<Refund>, refunds': seq<Refund>, p: nat)
    requires refunds <= refunds' && forall r | 0 <= r < |refunds'| :: refunds'[r].amount > 0
    ensures RefundTotal(refunds, p) <= RefundTotal(refunds', p)
    decreases |refunds'|
  {
    if refunds != refunds' {
      RefundsOnlyGrow(refunds, refunds'[..|refunds'| - 1], p);
    }
  }

  /** A payment that only ends contributes no more than before. */
  lemma ContributionOnlyFalls(bk: Books, now: Books, p: nat)
    requires Inv(bk) && Inv(now) && Extends(bk, now) && p < |bk.payments| && p < |now.payments|
    requires OnlyEnds(bk.payments[p].status, now.payments[p].status)
    ensures NetContribution(PaymentAt(now, p)) <= NetContribution(PaymentAt(bk, p))
  {
    hide CapsOk, PlansOk, RefundTotal;
    assert PaymentOk(now, p);
    forall r | 0 <= r < |now.refunds| ensures now.refunds[r].amount > 0 {
      assert RefundRefOk(now, now.refunds[r]);
    }
    RefundsOnlyGrow(bk.refunds, now.refunds, p);
  }

  lemma {:induction false} PickOfLonger(keys: seq<nat>, keys': seq<nat>, k: nat)
    requires keys <= keys' && forall i | |keys| <= i < |keys'| :: keys'[i] != k
    ensures Pick(keys', k) == Pick(keys, k)
    decreases |keys'|
  {
    if keys != keys' {
      PickOfLonger(keys, keys'[..|keys'| - 1], k);
    }
  }

  lemma {:induction false} SmallerViewsSumLess(views: seq<PaymentView>, views': seq<PaymentView>)
    requires |views| == |views'| && forall k | 0 <= k < |views| :: NetContribution(views'[k]) <= NetContribution(views[k])
    ensures NetConfirmedPaid(views') <= NetConfirmedPaid(views)
  {
    if views != [] {
      SmallerViewsSumLess(views[..|views| - 1], views'[..|views'| - 1]);
    }
  }

  /** While a cancelled booking is not reopened, the amount paid on it only ever falls. */
  lemma CancelledBookingOnlyRefunds(bk: Books, later: seq<Event>, b: nat)
    requires Inv(bk) && AllWellFormed(later) && b < |bk.bookings| && bk.bookings[b].cancelled
    requires forall n | 0 <= n < |later| :: !Reopens(later[n], b)
    ensures Paid(Run(bk, later), b) <= Paid(bk, b)
  {
    hide Run, RefsOk, PlansOk, RowsOk, CapsOk, WellFormed, Reopens, PaymentAt, NetContribution, RefundTotal;
    var now := Run(bk, later);
    CancelledBookingStaysClosed(bk, later, b);
    RunKeepsInv(bk, later);
    RunExtends(bk, later);
    PickOfLonger(PaymentBookings(bk), PaymentBookings(now), b);
    var ps := PaymentsOf(bk, b);
    assert PaymentsOf(now, b) == ps;
    forall k | 0 <= k < |ps| ensures NetContribution(PaymentAt(now, ps[k])) <= NetContribution(PaymentAt(bk, ps[k])) {
      assert ps[k] in ps && now.payments[ps[k]].booking == b;
      ContributionOnlyFalls(bk, now, ps[k]);
    }
    SmallerViewsSumLess(PaymentViews(bk, ps), PaymentViews(now, ps));
  }
}
