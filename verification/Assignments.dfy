/** Staff assignments: one table of rows, each change audited, replayable from the audit alone. */
module Assignments {
  import opened Wrappers

  type StaffId = nat

  datatype Target = LeadTarget(id: nat) | ClientTarget(id: nat) | BookingTarget(id: nat)

  datatype Role = TravelConsultant | FinanceAccounting

  datatype Assignment = Assignment(target: Target, role: Role, staff: StaffId, ended: bool)

  datatype Change = Created | Replaced | Ended

  /** Finance entries have action names of their own, never the consultant ones. */
  datatype Action = AssignmentAction(change: Change) | FinanceAssignmentAction(change: Change)

  datatype Entry = Entry(action: Action, target: Target, before: Option<StaffId>, after: StaffId)

  datatype Desk = Desk(rows: seq<Assignment>, audit: seq<Entry>)

  datatype Error = NotFound | AssigneeNotEligible | ReasonRequired

  datatype Outcome = Applied | Unchanged | Refused(error: Error)

  predicate IsActive(a: Assignment, t: Target, r: Role) {
    a.target == t && a.role == r && !a.ended
  }

  /** The lookup by target and role among rows that have not ended. */
  function FindActive(rows: seq<Assignment>, t: Target, r: Role): (found: Option<nat>)
    ensures found.Some? ==> found.value < |rows| && IsActive(rows[found.value], t, r)
    ensures found.None? ==> forall i | 0 <= i < |rows| :: !IsActive(rows[i], t, r)
  {
    if rows == [] then None
    else if IsActive(rows[|rows| - 1], t, r) then Some(|rows| - 1)
    else FindActive(rows[..|rows| - 1], t, r)
  }

  function ActiveStaff(rows: seq<Assignment>, t: Target, r: Role): Option<StaffId> {
    var found := FindActive(rows, t, r);
    if found.None? then None else Some(rows[found.value].staff)
  }

  function ActionFor(r: Role, change: Change): Action {
    if r.FinanceAccounting? then FinanceAssignmentAction(change) else AssignmentAction(change)
  }

  function Ending(rows: seq<Assignment>, i: nat): seq<Assignment>
    requires i < |rows|
  {
    rows[i := rows[i].(ended := true)]
  }

  /** Creates the first assignment of a target nothing else is assigned to. */
  function Assign(desk: Desk, t: Target, r: Role, staff: StaffId): Desk {
    Desk(desk.rows + [Assignment(t, r, staff, false)], desk.audit + [Entry(ActionFor(r, Created), t, None, staff)])
  }

  /** Set or replace: a repeat of the current assignee is a no-op before any other check. */
  function Assigned(
      desk: Desk, t: Target, r: Role, staff: StaffId, targetExists: bool, eligible: bool, hasReason: bool): (Desk, Outcome)
  {
    var active := FindActive(desk.rows, t, r);
    if !targetExists then (desk, Refused(NotFound))
    else if active.Some? && desk.rows[active.value].staff == staff then (desk, Unchanged)
    else if !eligible then (desk, Refused(AssigneeNotEligible))
    else if active.None? then (Assign(desk, t, r, staff), Applied)
    else if !hasReason then (desk, Refused(ReasonRequired))
    else
      var before := desk.rows[active.value].staff;
      (Desk(Ending(desk.rows, active.value) + [Assignment(t, r, staff, false)],
            desk.audit + [Entry(ActionFor(r, Replaced), t, Some(before), staff)]), Applied)
  }

  function Released(desk: Desk, t: Target, r: Role, targetExists: bool): (Desk, Outcome) {
    var active := FindActive(desk.rows, t, r);
    if !targetExists then (desk, Refused(NotFound))
    else if active.None? then (desk, Unchanged)
    else
      var staff := desk.rows[active.value].staff;
      (Desk(Ending(desk.rows, active.value), desk.audit + [Entry(ActionFor(r, Ended), t, Some(staff), staff)]), Applied)
  }

  /** The assignment table as the transactions change it. */
  class AssignmentTable {
    var rows: seq<Assignment>
    var audit: seq<Entry>

    ghost function State(): Desk
      reads this
    {
      Desk(rows, audit)
    }

    constructor ()
      ensures State() == Desk([], [])
    {
      rows, audit := [], [];
    }

    method Set(t: Target, r: Role, staff: StaffId, targetExists: bool, eligible: bool, hasReason: bool) returns (outcome: Outcome)
      modifies this
      ensures (State(), outcome) == Assigned(old(State()), t, r, staff, targetExists, eligible, hasReason)
    {
      if !targetExists {
        return Refused(NotFound);
      }
      var active := FindActive(rows, t, r);
      if active.Some? && rows[active.value].staff == staff {
        return Unchanged;
      }
      if !eligible {
        return Refused(AssigneeNotEligible);
      }
      if active.Some? && !hasReason {
        return Refused(ReasonRequired);
      }
      var before: Option<StaffId> := None;
      if active.Some? {
        before := Some(rows[active.value].staff);
        rows := Ending(rows, active.value);
      }
      rows := rows + [Assignment(t, r, staff, false)];
      audit := audit + [Entry(ActionFor(r, if before.Some? then Replaced else Created), t, before, staff)];
      return Applied;
    }

    method End(t: Target, r: Role, targetExists: bool) returns (outcome: Outcome)
      modifies this
      ensures (State(), outcome) == Released(old(State()), t, r, targetExists)
    {
      if !targetExists {
        return Refused(NotFound);
      }
      var active := FindActive(rows, t, r);
      if active.None? {
        return Unchanged;
      }
      var staff := rows[active.value].staff;
      rows := Ending(rows, active.value);
      audit := audit + [Entry(ActionFor(r, Ended), t, Some(staff), staff)];
      return Applied;
    }
  }

  // ---------------------------------------------------------------- replay

  /** Who the audit entries alone say is assigned: the last created or replaced one not ended since. */
  function Replay(audit: seq<Entry>, t: Target, r: Role): Option<StaffId> {
    if audit == [] then None
    else
      var last := audit[|audit| - 1];
      if last.target != t || last.action != ActionFor(r, last.action.change) then Replay(audit[..|audit| - 1], t, r)
      else if last.action.change.Ended? then None
      else Some(last.after)
  }

  ghost predicate AtMostOne(rows: seq<Assignment>) {
    forall i, j | 0 <= i < j < |rows| && !rows[i].ended && !rows[j].ended ::
      rows[i].target != rows[j].target || rows[i].role != rows[j].role
  }

  /** At most one active row a target and role, and the audit replays to exactly the active staff member. */
  ghost predicate Synced(desk: Desk) {
    AtMostOne(desk.rows) && forall t, r :: Replay(desk.audit, t, r) == ActiveStaff(desk.rows, t, r)
  }

  lemma ActiveIs(rows: seq<Assignment>, t: Target, r: Role, i: nat)
    requires AtMostOne(rows) && i < |rows| && IsActive(rows[i], t, r)
    ensures FindActive(rows, t, r) == Some(i)
  {
  }

  lemma ReplayOne(audit: seq<Entry>, e: Entry, t: Target, r: Role)
    ensures Replay(audit + [e], t, r) ==
            if e.target != t || e.action != ActionFor(r, e.action.change) then Replay(audit, t, r)
            else if e.action.change.Ended? then None
            else Some(e.after)
  {
    assert (audit + [e])[..|audit|] == audit;
  }

  /** Rows of other targets and roles are found as before. */
  lemma OthersFoundAsBefore(rows: seq<Assignment>, rows': seq<Assignment>, t: Target, r: Role)
    requires AtMostOne(rows) && AtMostOne(rows') && |rows| <= |rows'|
    requires forall i | 0 <= i < |rows| :: IsActive(rows[i], t, r) <==> IsActive(rows'[i], t, r)
    requires forall i | 0 <= i < |rows| :: rows'[i].staff == rows[i].staff
    requires forall i | |rows| <= i < |rows'| :: !IsActive(rows'[i], t, r)
    ensures ActiveStaff(rows', t, r) == ActiveStaff(rows, t, r)
  {
    var found := FindActive(rows, t, r);
    if found.Some? {
      ActiveIs(rows', t, r, found.value);
    }
  }

  lemma EndingFinds(rows: seq<Assignment>, i: nat)
    requires AtMostOne(rows) && i < |rows| && !rows[i].ended
    ensures AtMostOne(Ending(rows, i))
    ensures ActiveStaff(Ending(rows, i), rows[i].target, rows[i].role) == None
    ensures forall t, r | t != rows[i].target || r != rows[i].role :: ActiveStaff(Ending(rows, i), t, r) == ActiveStaff(rows, t, r)
  {
    var rows' := Ending(rows, i);
    forall t, r | t != rows[i].target || r != rows[i].role ensures ActiveStaff(rows', t, r) == ActiveStaff(rows, t, r) {
      OthersFoundAsBefore(rows, rows', t, r);
    }
  }

  lemma AppendingFinds(rows: seq<Assignment>, a: Assignment)
    requires AtMostOne(rows) && !a.ended && FindActive(rows, a.target, a.role).None?
    ensures AtMostOne(rows + [a])
    ensures ActiveStaff(rows + [a], a.target, a.role) == Some(a.staff)
    ensures forall t, r | t != a.target || r != a.role :: ActiveStaff(rows + [a], t, r) == ActiveStaff(rows, t, r)
  {
    ActiveIs(rows + [a], a.target, a.role, |rows|);
    forall t, r | t != a.target || r != a.role ensures ActiveStaff(rows + [a], t, r) == ActiveStaff(rows, t, r) {
      OthersFoundAsBefore(rows, rows + [a], t, r);
    }
  }

  lemma AssignKeepsSynced(desk: Desk, t: Target, r: Role, staff: StaffId)
    requires Synced(desk) && FindActive(desk.rows, t, r).None?
    ensures Synced(Assign(desk, t, r, staff))
  {
    var desk' := Assign(desk, t, r, staff);
    AppendingFinds(desk.rows, Assignment(t, r, staff, false));
    forall x, y ensures Replay(desk'.audit, x, y) == ActiveStaff(desk'.rows, x, y) {
      ReplayOne(desk.audit, desk'.audit[|desk.audit|], x, y);
    }
  }

  lemma SetKeepsSynced(desk: Desk, t: Target, r: Role, staff: StaffId, targetExists: bool, eligible: bool, hasReason: bool)
    requires Synced(desk)
    ensures Synced(Assigned(desk, t, r, staff, targetExists, eligible, hasReason).0)
  {
    hide FindActive, Replay;
    var desk' := Assigned(desk, t, r, staff, targetExists, eligible, hasReason).0;
    var active := FindActive(desk.rows, t, r);
    if desk' != desk {
      if active.None? {
        AssignKeepsSynced(desk, t, r, staff);
      } else {
        EndingFinds(desk.rows, active.value);
        AppendingFinds(Ending(desk.rows, active.value), Assignment(t, r, staff, false));
        forall x, y ensures Replay(desk'.audit, x, y) == ActiveStaff(desk'.rows, x, y) {
          ReplayOne(desk.audit, desk'.audit[|desk.audit|], x, y);
        }
      }
    }
  }

  lemma EndKeepsSynced(desk: Desk, t: Target, r: Role, targetExists: bool)
    requires Synced(desk)
    ensures Synced(Released(desk, t, r, targetExists).0)
  {
    hide FindActive, Replay;
    var desk' := Released(desk, t, r, targetExists).0;
    if desk' != desk {
      EndingFinds(desk.rows, FindActive(desk.rows, t, r).value);
      forall x, y ensures Replay(desk'.audit, x, y) == ActiveStaff(desk'.rows, x, y) {
        ReplayOne(desk.audit, desk'.audit[|desk.audit|], x, y);
      }
    }
  }

  /** Setting or ending one target's role moves no other replay: consultant and finance histories never mix. */
  lemma OtherReplaysUnmoved(
      desk: Desk, t: Target, r: Role, staff: StaffId, targetExists: bool, eligible: bool, hasReason: bool, x: Target, y: Role)
    requires x != t || y != r
    ensures Replay(Assigned(desk, t, r, staff, targetExists, eligible, hasReason).0.audit, x, y) == Replay(desk.audit, x, y)
    ensures Replay(Released(desk, t, r, targetExists).0.audit, x, y) == Replay(desk.audit, x, y)
  {
    var afterSet := Assigned(desk, t, r, staff, targetExists, eligible, hasReason).0;
    if afterSet != desk {
      ReplayOne(desk.audit, afterSet.audit[|desk.audit|], x, y);
    }
    var afterEnd := Released(desk, t, r, targetExists).0;
    if afterEnd != desk {
      ReplayOne(desk.audit, afterEnd.audit[|desk.audit|], x, y);
    }
  }
}
