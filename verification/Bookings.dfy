/** Bookings: creation from an accepted proposal version, and status changes with history. */
module Bookings {
  import opened Wrappers

  datatype BookingStatus =
    | Draft | PendingConfirmation | Confirmed | InPreparation | DocumentsRequired | VisaProcessing
    | ReadyForTravel | InProgress | Completed | Cancelled

  function Targets(from: BookingStatus): set<BookingStatus> {
    match from
    case Draft => {PendingConfirmation, Cancelled}
    case PendingConfirmation => {Confirmed, Cancelled}
    case Confirmed => {InPreparation, Cancelled}
    case InPreparation => {DocumentsRequired, VisaProcessing, ReadyForTravel, Cancelled}
    case DocumentsRequired => {VisaProcessing, ReadyForTravel, Cancelled}
    case VisaProcessing => {DocumentsRequired, ReadyForTravel, Cancelled}
    case ReadyForTravel => {InProgress, Cancelled}
    case InProgress => {Completed, Cancelled}
    case Completed => {}
    case Cancelled => {}
  }

  datatype StatusChange = StatusChange(previous: Option<BookingStatus>, next: BookingStatus)

  datatype Booking = Booking(reference: string, proposalVersion: nat, client: nat, status: BookingStatus, history: seq<StatusChange>)

  /** A proposal version the actor may book: its client, and whether the client accepted it. */
  datatype Eligible = Eligible(client: nat, accepted: bool)

  datatype Outcome =
    | Created(index: nat)
    | Existing(index: nat)
    | VersionNotFound
    | VersionNotAccepted
    | Conflict
    | Unchanged
    | Applied
    | NotFound
    | InvalidTransition

  const MAX_REFERENCE_ATTEMPTS: nat := 3

  predicate ReferenceTaken(bookings: seq<Booking>, reference: string) {
    exists b :: 0 <= b < |bookings| && bookings[b].reference == reference
  }

  function FindVersion(bookings: seq<Booking>, version: nat): (found: Option<nat>)
    ensures found.Some? ==> found.value < |bookings| && bookings[found.value].proposalVersion == version
    ensures found.None? ==> forall b | 0 <= b < |bookings| :: bookings[b].proposalVersion != version
  {
    if bookings == [] then None
    else if bookings[|bookings| - 1].proposalVersion == version then Some(|bookings| - 1)
    else FindVersion(bookings[..|bookings| - 1], version)
  }

  /** A connected path of allowed edges from null to the current status. */
  predicate IsPath(history: seq<StatusChange>, status: BookingStatus) {
    && history != []
    && history[0] == StatusChange(None, Draft)
    && (forall k | 0 < k < |history| ::
          history[k].previous == Some(history[k - 1].next) && history[k].next in Targets(history[k - 1].next))
    && history[|history| - 1].next == status
  }

  ghost predicate TableOk(bookings: seq<Booking>) {
    && (forall a, b | 0 <= a < b < |bookings| :: bookings[a].reference != bookings[b].reference)
    && (forall a, b | 0 <= a < b < |bookings| :: bookings[a].proposalVersion != bookings[b].proposalVersion)
    && (forall b | 0 <= b < |bookings| :: IsPath(bookings[b].history, bookings[b].status))
  }

  function Moved(b: Booking, next: BookingStatus): Booking {
    b.(status := next, history := b.history + [StatusChange(Some(b.status), next)])
  }

  /** How far along a status is; documents and visa work share a stage and may alternate. */
  function Stage(status: BookingStatus): nat {
    match status
    case Draft => 0
    case PendingConfirmation => 1
    case Confirmed => 2
    case InPreparation => 3
    case DocumentsRequired => 4
    case VisaProcessing => 4
    case ReadyForTravel => 5
    case InProgress => 6
    case Completed => 7
    case Cancelled => 7
  }

  /** Along any history a booking never goes back a stage, and nothing follows its end. */
  lemma {:induction false} HistoryOnlyAdvances(history: seq<StatusChange>, status: BookingStatus, i: nat, j: nat)
    requires IsPath(history, status) && i < j < |history|
    ensures Stage(history[i].next) <= Stage(history[j].next)
    ensures !history[i].next.Completed? && !history[i].next.Cancelled?
    decreases j - i
  {
    assert history[i + 1].next in Targets(history[i].next);
    if i + 1 < j {
      HistoryOnlyAdvances(history, status, i + 1, j);
    }
  }

  /** The first code that no booking carries; the number of codes when every one is taken. */
  function FirstFree(bookings: seq<Booking>, references: seq<string>): (k: nat)
    ensures k <= |references| && (forall j | 0 <= j < k :: ReferenceTaken(bookings, references[j]))
    ensures k < |references| ==> !ReferenceTaken(bookings, references[k])
  {
    if references == [] || !ReferenceTaken(bookings, references[0]) then 0
    else
      var k := 1 + FirstFree(bookings, references[1..]);
      assert forall j | 1 <= j < k :: references[j] == references[1..][j - 1];
      k
  }

  /** What a creation answers: an existing booking first, then what the version allows, then the unique columns. */
  function CreateOutcome(
      bookings: seq<Booking>, version: nat, eligible: Option<Eligible>, visible: bool, references: seq<string>): Outcome
  {
    var found := FindVersion(bookings, version);
    if visible && found.Some? then Existing(found.value)
    else if eligible.None? then VersionNotFound
    else if !eligible.value.accepted then VersionNotAccepted
    else if FirstFree(bookings, references) == |references| then Conflict
    else if found.Some? then Conflict
    else Created(|bookings|)
  }

  /** A version is booked exactly once accepted, while no booking has it and one of the codes is free. */
  lemma CreateAnswers(bookings: seq<Booking>, version: nat, eligible: Option<Eligible>, visible: bool, references: seq<string>)
    requires TableOk(bookings)
    ensures var outcome := CreateOutcome(bookings, version, eligible, visible, references);
            var booked := exists b :: 0 <= b < |bookings| && bookings[b].proposalVersion == version;
            var accepted := eligible.Some? && eligible.value.accepted;
            var free := exists k :: 0 <= k < |references| && forall b | 0 <= b < |bookings| :: bookings[b].reference != references[k];
            && (forall b: nat :: outcome == Existing(b) <==> visible && b < |bookings| && bookings[b].proposalVersion == version)
            && (outcome == VersionNotFound <==> !(visible && booked) && eligible == None)
            && (outcome == VersionNotAccepted <==> !(visible && booked) && eligible.Some? && !accepted)
            && (outcome == Conflict <==> accepted && (if booked then !visible else !free))
            && (outcome == Created(|bookings|) <==> accepted && !booked && free)
            && (outcome.Created? ==> outcome.index == |bookings|)
  {
    var found := FindVersion(bookings, version);
    var k := FirstFree(bookings, references);
    forall j: nat | j < |references|
      ensures ReferenceTaken(bookings, references[j]) <==> !(forall b | 0 <= b < |bookings| :: bookings[b].reference != references[j])
    {
    }
    hide ReferenceTaken, FirstFree, FindVersion;
  }

  /** A live booking is cancelled or moves one stage on; documents and visa work may be skipped or alternate. */
  lemma BookingMatrix(from: BookingStatus, to: BookingStatus)
    ensures to in Targets(from) <==>
            && from !in {Completed, Cancelled}
            && (to == Cancelled || Stage(to) == Stage(from) + 1
                || (from in {DocumentsRequired, VisaProcessing} && to in {DocumentsRequired, VisaProcessing} && from != to)
                || (from == InPreparation && to == ReadyForTravel))
  {
  }

  lemma AddedBookingKeepsTable(bookings: seq<Booking>, b: Booking)
    requires TableOk(bookings) && !ReferenceTaken(bookings, b.reference) && FindVersion(bookings, b.proposalVersion).None?
    requires IsPath(b.history, b.status)
    ensures TableOk(bookings + [b])
  {
  }

  lemma MovedBookingKeepsTable(bookings: seq<Booking>, b: nat, next: BookingStatus)
    requires TableOk(bookings) && b < |bookings| && next in Targets(bookings[b].status)
    ensures TableOk(bookings[b := Moved(bookings[b], next)])
  {
  }

  class BookingTable {
    var bookings: seq<Booking>

    ghost predicate Valid()
      reads this
    {
      TableOk(bookings)
    }

    constructor ()
      ensures Valid() && bookings == []
    {
      bookings := [];
    }

    /**
     * `references` are the codes the generator would give, one an attempt; `visible` says whether the actor may
     * see a booking of this version. One booking a version is ever created, under the first code that is free.
     */
    method Create(version: nat, eligible: Option<Eligible>, visible: bool, references: seq<string>) returns (outcome: Outcome)
      requires Valid() && |references| == MAX_REFERENCE_ATTEMPTS
      modifies this
      ensures Valid()
      ensures outcome == CreateOutcome(old(bookings), version, eligible, visible, references)
      ensures outcome.Created? ==>
                && eligible.Some?
                && var k := FirstFree(old(bookings), references);
                   k < |references|
                   && bookings == old(bookings)
                      + [Booking(references[k], version, eligible.value.client, Draft, [StatusChange(None, Draft)])]
      ensures !outcome.Created? ==> bookings == old(bookings)
    {
      hide TableOk, ReferenceTaken, FindVersion;
      for attempt := 0 to MAX_REFERENCE_ATTEMPTS
        invariant bookings == old(bookings)
        invariant attempt > 0 ==>
                    !(visible && FindVersion(bookings, version).Some?) && eligible.Some? && eligible.value.accepted
        invariant forall j | 0 <= j < attempt :: ReferenceTaken(bookings, references[j])
      {
        var existing := FindVersion(bookings, version);
        if visible && existing.Some? {
          return Existing(existing.value);
        }
        if eligible.None? {
          return VersionNotFound;
        }
        if !eligible.value.accepted {
          return VersionNotAccepted;
        }
        if !ReferenceTaken(bookings, references[attempt]) {
          if existing.Some? {
            return Conflict;
          }
          var created := Booking(references[attempt], version, eligible.value.client, Draft, [StatusChange(None, Draft)]);
          AddedBookingKeepsTable(bookings, created);
          bookings := bookings + [created];
          return Created(|bookings| - 1);
        }
      }
      return Conflict;
    }

    method UpdateStatus(b: nat, next: BookingStatus, expected: BookingStatus) returns (outcome: Outcome)
      requires Valid()
      modifies this
      ensures Valid()
      ensures b >= |old(bookings)| ==> outcome == NotFound
      ensures b < |old(bookings)| ==>
                outcome ==
                if old(bookings)[b].status == next then Unchanged
                else if old(bookings)[b].status != expected then Conflict
                else if next in Targets(expected) then Applied
                else InvalidTransition
      ensures bookings ==
              if outcome == Applied
              then old(bookings)[b := old(bookings)[b].(
                     status := next, history := old(bookings)[b].history + [StatusChange(Some(expected), next)])]
              else old(bookings)
    {
      hide TableOk;
      if b >= |bookings| {
        return NotFound;
      }
      var found := bookings[b];
      if found.status == next {
        return Unchanged;
      }
      if found.status != expected {
        return Conflict;
      }
      if next !in Targets(found.status) {
        return InvalidTransition;
      }
      MovedBookingKeepsTable(bookings, b, next);
      bookings := bookings[b := found.(status := next, history := found.history + [StatusChange(Some(found.status), next)])];
      return Applied;
    }
  }
}
