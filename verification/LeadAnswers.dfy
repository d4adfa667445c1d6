/**
 * When each operation on assignments, leads and clients succeeds, and exactly what it then leaves: stated on rows,
 * contact values and who holds which target, without the guards and row builders of the model.
 */
module LeadAnswers {
  import opened Wrappers
  import opened Assignments
  import opened Leads
  import opened LeadTheorems
  import Contact

  // ---------------------------------------------------------------- assignments

  /** The staff member is assigned to the target in the role now. */
  ghost predicate Holds(rows: seq<Assignment>, t: Target, r: Role, s: StaffId) {
    exists i :: 0 <= i < |rows| && rows[i] == Assignment(t, r, s, false)
  }

  /** Nobody else's assignment is touched, and no earlier row but for its end. */
  ghost predicate OnlyMoves(rows: seq<Assignment>, rows': seq<Assignment>, t: Target, r: Role) {
    && |rows| <= |rows'|
    && (forall i | 0 <= i < |rows| :: rows'[i].(ended := rows[i].ended) == rows[i] && (rows[i].ended ==> rows'[i].ended))
    && (forall x, y, s: StaffId | x != t || y != r :: Holds(rows', x, y, s) <==> Holds(rows, x, y, s))
  }

  /** The lookup finds whoever holds the target. */
  lemma HolderIsFound(rows: seq<Assignment>, t: Target, r: Role, s: StaffId)
    requires AtMostOne(rows)
    ensures Holds(rows, t, r, s) <==> ActiveStaff(rows, t, r) == Some(s)
  {
    if i :| 0 <= i < |rows| && rows[i] == Assignment(t, r, s, false) {
      ActiveIs(rows, t, r, i);
    }
    var found := FindActive(rows, t, r);
    if found.Some? {
      assert rows[found.value] == Assignment(t, r, rows[found.value].staff, false);
    }
  }

  lemma HoldersAreFound(rows: seq<Assignment>)
    requires AtMostOne(rows)
    ensures forall t, r, s: StaffId :: Holds(rows, t, r, s) <==> ActiveStaff(rows, t, r) == Some(s)
  {
    hide Holds, ActiveStaff;
    forall t, r, s: StaffId ensures Holds(rows, t, r, s) <==> ActiveStaff(rows, t, r) == Some(s) {
      HolderIsFound(rows, t, r, s);
    }
  }

  /** What the table holds after one more row, where nobody held its target. */
  lemma AppendedHolds(rows: seq<Assignment>, a: Assignment)
    requires !a.ended
    ensures Holds(rows + [a], a.target, a.role, a.staff)
    ensures forall x, y, s: StaffId :: Holds(rows + [a], x, y, s) <==> Holds(rows, x, y, s) || a == Assignment(x, y, s, false)
  {
    var rows' := rows + [a];
    assert rows'[|rows|] == a;
    forall x, y, s: StaffId ensures Holds(rows', x, y, s) <==> Holds(rows, x, y, s) || a == Assignment(x, y, s, false) {
      if Holds(rows, x, y, s) {
        var i :| 0 <= i < |rows| && rows[i] == Assignment(x, y, s, false);
        assert rows'[i] == rows[i];
      }
    }
  }

  lemma EndedHolds(rows: seq<Assignment>, i: nat)
    requires AtMostOne(rows) && i < |rows| && !rows[i].ended
    ensures forall x, y, s: StaffId ::
              Holds(Ending(rows, i), x, y, s) <==> Holds(rows, x, y, s) && (x != rows[i].target || y != rows[i].role)
  {
    var rows' := Ending(rows, i);
    forall x, y, s: StaffId
      ensures Holds(rows', x, y, s) <==> Holds(rows, x, y, s) && (x != rows[i].target || y != rows[i].role)
    {
      if k :| 0 <= k < |rows'| && rows'[k] == Assignment(x, y, s, false) {
        assert rows[k] == rows'[k];
      }
      if Holds(rows, x, y, s) && (x != rows[i].target || y != rows[i].role) {
        var k :| 0 <= k < |rows| && rows[k] == Assignment(x, y, s, false);
        assert rows'[k] == rows[k];
      }
    }
  }

  /** Who is refused and why; a change leaves exactly the new assignee on the target, and is audited once. */
  lemma SetAnswers(desk: Desk, t: Target, r: Role, staff: StaffId, targetExists: bool, eligible: bool, hasReason: bool)
    requires AtMostOne(desk.rows)
    ensures var (desk', outcome) := Assigned(desk, t, r, staff, targetExists, eligible, hasReason);
            var held := Holds(desk.rows, t, r, staff);
            var taken := exists s: StaffId :: Holds(desk.rows, t, r, s);
            && (outcome == Refused(NotFound) <==> !targetExists)
            && (outcome == Assignments.Unchanged <==> targetExists && held)
            && (outcome == Refused(AssigneeNotEligible) <==> targetExists && !held && !eligible)
            && (outcome == Refused(ReasonRequired) <==> targetExists && !held && eligible && taken && !hasReason)
            && (outcome == Assignments.Applied <==> targetExists && !held && eligible && (taken ==> hasReason))
            && (outcome != Assignments.Applied ==> desk' == desk)
            && (outcome == Assignments.Applied ==>
                  && OnlyMoves(desk.rows, desk'.rows, t, r)
                  && (forall s: StaffId :: Holds(desk'.rows, t, r, s) <==> s == staff)
                  && |desk'.audit| == |desk.audit| + 1 && desk.audit <= desk'.audit
                  && var entry := desk'.audit[|desk.audit|];
                     && entry.target == t && entry.after == staff
                     && (forall s: StaffId :: entry.before == Some(s) <==> Holds(desk.rows, t, r, s))
                     && entry.action ==
                        if r == FinanceAccounting then FinanceAssignmentAction(if taken then Replaced else Created)
                        else AssignmentAction(if taken then Replaced else Created))
  {
    hide FindActive, Holds;
    HoldersAreFound(desk.rows);
    var active := FindActive(desk.rows, t, r);
    var a := Assignment(t, r, staff, false);
    if active.Some? {
      assert ActiveStaff(desk.rows, t, r) == Some(desk.rows[active.value].staff);
      EndedHolds(desk.rows, active.value);
      AppendedHolds(Ending(desk.rows, active.value), a);
    } else {
      AppendedHolds(desk.rows, a);
    }
  }

  /** An end leaves nobody on the target. */
  lemma EndAnswers(desk: Desk, t: Target, r: Role, targetExists: bool)
    requires AtMostOne(desk.rows)
    ensures var (desk', outcome) := Released(desk, t, r, targetExists);
            var taken := exists s: StaffId :: Holds(desk.rows, t, r, s);
            && (outcome == Refused(NotFound) <==> !targetExists)
            && (outcome == Assignments.Unchanged <==> targetExists && !taken)
            && (outcome == Assignments.Applied <==> targetExists && taken)
            && (outcome != Assignments.Applied ==> desk' == desk)
            && (outcome == Assignments.Applied ==>
                  && OnlyMoves(desk.rows, desk'.rows, t, r) && |desk'.rows| == |desk.rows|
                  && (forall s: StaffId :: !Holds(desk'.rows, t, r, s))
                  && |desk'.audit| == |desk.audit| + 1 && desk.audit <= desk'.audit
                  && var entry := desk'.audit[|desk.audit|];
                     && entry.target == t && Holds(desk.rows, t, r, entry.after) && entry.before == Some(entry.after)
                     && entry.action == if r == FinanceAccounting then FinanceAssignmentAction(Ended) else AssignmentAction(Ended))
  {
    hide FindActive, Holds;
    HoldersAreFound(desk.rows);
    var active := FindActive(desk.rows, t, r);
    if active.Some? {
      assert ActiveStaff(desk.rows, t, r) == Some(desk.rows[active.value].staff);
      EndedHolds(desk.rows, active.value);
    }
  }

  // ---------------------------------------------------------------- the status matrix

  /** How far an open lead has come. */
  function Progress(status: LeadStatus): Option<nat> {
    match status
    case New => Some(0)
    case UnderReview => Some(1)
    case Contacted => Some(2)
    case ConsultationScheduled => Some(3)
    case Qualified => Some(4)
    case _ => None
  }

  predicate IsClosed(status: LeadStatus) {
    status in {NotProceeding, Duplicate, Spam, LeadStatus.Archived}
  }

  /** An open lead only moves on or is closed; a closed one is reopened for review or archived once. Nothing leaves a conversion. */
  lemma LeadMatrix(from: LeadStatus, to: LeadStatus)
    ensures to in Targets(from) <==>
            || (Progress(from).Some? && (IsClosed(to) || (Progress(to).Some? && Progress(from).value < Progress(to).value)))
            || (IsClosed(from) && (to == UnderReview || (to == LeadStatus.Archived && from != LeadStatus.Archived)))
    ensures to in Targets(from) ==>
              (NeedsReason(from, to) <==> to in {Duplicate, Spam} || (IsClosed(from) && to == UnderReview))
  {
  }

  /** A status change is written exactly on an allowed edge from the expected status, with a reason where one is due. */
  lemma StatusAnswers(o: Office, i: nat, next: LeadStatus, expected: LeadStatus, hasReason: bool)
    ensures var (o', outcome) := UpdateStatus(o, i, next, expected, hasReason);
            && (outcome == LeadOutcome.Done <==>
                && i < |o.leads| && o.leads[i].status == expected && next in Targets(expected) && next != expected
                && (NeedsReason(expected, next) ==> hasReason))
            && (outcome != LeadOutcome.Done ==> o' == o)
            && (outcome == LeadOutcome.Done ==>
                  var lead := o.leads[i];
                  o' == o.(leads := o.leads[i := lead.(status := next, history := lead.history + [StatusChange(Some(expected), next)])]))
  {
    hide NeedsReason;
  }

  // ---------------------------------------------------------------- leads

  /** The normal forms of contact values as the columns store them. */
  function StoredEmail(v: Option<string>): Option<string> {
    if v == None || v == Some("") then None else Some(Contact.NormalizeEmail(v.value))
  }

  function StoredPhone(v: Option<string>): Option<string> {
    if v == None || v == Some("") then None else Some(Contact.NormalizePhone(v.value))
  }

  /** A column of a request: the value given, or the present one. */
  function Given(column: Option<Option<string>>, present: Option<string>): Option<string> {
    if column.Some? then column.value else present
  }

  /** A new lead keeps the contact values given, and a consultant who creates it holds it. */
  lemma CreateLeadAnswers(o: Office, email: Option<string>, phone: Option<string>, consultant: Option<StaffId>)
    requires Inv(o)
    ensures var (o', outcome) := CreateLead(o, email, phone, consultant);
            var lead := Lead(New, email, phone, StoredEmail(email), StoredPhone(phone), None, [StatusChange(None, New)]);
            && outcome == LeadOutcome.Done
            && o' == o.(leads := o.leads + [lead], desk := o'.desk)
            && OnlyMoves(o.desk.rows, o'.desk.rows, LeadTarget(|o.leads|), TravelConsultant)
            && forall s: StaffId :: Holds(o'.desk.rows, LeadTarget(|o.leads|), TravelConsultant, s) <==> consultant == Some(s)
  {
    hide RowsOk, Holds, Contact.NormalizeEmail, Contact.NormalizePhone;
    NobodyHolds(o, LeadTarget(|o.leads|));
    if consultant.Some? {
      AppendedHolds(o.desk.rows, Assignment(LeadTarget(|o.leads|), TravelConsultant, consultant.value, false));
    }
  }

  /** Nobody holds a target that does not exist yet. */
  lemma NobodyHolds(o: Office, t: Target)
    requires DeskOk(o) && !Exists(o, t)
    ensures forall r, s: StaffId :: !Holds(o.desk.rows, t, r, s)
  {
  }

  /** The conditions of an edit that are read before its transaction, and the columns it then will write. */
  lemma BeginEditAnswers(
      o: Office, i: nat, editor: Option<StaffId>, email: Option<Option<string>>, phone: Option<Option<string>>, otherChanged: bool)
    requires Inv(o)
    ensures var (o', outcome) := BeginEdit(o, i, editor, email, phone, otherChanged);
            var allowed :=
              && i < |o.leads| && (editor.Some? ==> Holds(o.desk.rows, LeadTarget(i), TravelConsultant, editor.value))
              && o.leads[i].status != ConvertedToClient
              && ((Given(email, o.leads[i].email) != None && Given(email, o.leads[i].email) != Some(""))
                  || (Given(phone, o.leads[i].phone) != None && Given(phone, o.leads[i].phone) != Some("")));
            var newEmail := if allowed && Given(email, o.leads[i].email) != o.leads[i].email then email else None;
            var newPhone := if allowed && Given(phone, o.leads[i].phone) != o.leads[i].phone then phone else None;
            && (outcome == LeadOutcome.Done <==> allowed && (newEmail != None || newPhone != None || otherChanged))
            && o' == if outcome == LeadOutcome.Done then o.(pending := o.pending + [Patch(i, editor, newEmail, newPhone)]) else o
  {
    hide RowsOk, Holds, ActiveStaff;
    HoldersAreFound(o.desk.rows);
  }

  // ---------------------------------------------------------------- conversion

  lemma ClientMatches(o: Office, i: nat, c: nat)
    requires Inv(o) && i < |o.leads|
    ensures c in MatchingClients(o.clients, o.leads[i].normalizedEmail, o.leads[i].normalizedPhone, None) <==>
            c < |o.clients| && SameContact(o.clients[c].email, o.clients[c].phone, o.leads[i].email, o.leads[i].phone)
  {
    hide DeskOk, Contact.NormalizeEmail, Contact.NormalizePhone, IsPath;
    assert LeadOk(o, i);
    if c < |o.clients| {
      assert ClientOk(o, c);
    }
  }

  lemma AnyClientMatches(o: Office, i: nat)
    requires Inv(o) && i < |o.leads|
    ensures MatchingClients(o.clients, o.leads[i].normalizedEmail, o.leads[i].normalizedPhone, None) == [] <==>
            forall c | 0 <= c < |o.clients| ::
              !SameContact(o.clients[c].email, o.clients[c].phone, o.leads[i].email, o.leads[i].phone)
  {
    hide Inv, SameContact;
    var found := MatchingClients(o.clients, o.leads[i].normalizedEmail, o.leads[i].normalizedPhone, None);
    if found != [] {
      assert found[0] in found;
      ClientMatches(o, i, found[0]);
    }
    forall c: nat | c < |o.clients|
      ensures SameContact(o.clients[c].email, o.clients[c].phone, o.leads[i].email, o.leads[i].phone) ==> c in found
    {
      ClientMatches(o, i, c);
    }
  }

  /** A consultant works only on what they hold; a manager on anything. */
  ghost predicate MayHandle(o: Office, t: Target, consultant: Option<StaffId>) {
    consultant.Some? ==> Holds(o.desk.rows, t, TravelConsultant, consultant.value)
  }

  /** A client is created exactly for a qualified lead, by whoever may handle it, that shares no contact with a client. */
  ghost predicate Creates(o: Office, i: nat, client: Option<nat>, consultant: Option<StaffId>) {
    && i < |o.leads| && o.leads[i].status == Qualified && client == None && MayHandle(o, LeadTarget(i), consultant)
    && forall c | 0 <= c < |o.clients| ::
         !SameContact(o.clients[c].email, o.clients[c].phone, o.leads[i].email, o.leads[i].phone)
  }

  /** A client is linked exactly when it is named, shares a contact, and may be handled too. */
  ghost predicate Links(o: Office, i: nat, client: Option<nat>, consultant: Option<StaffId>) {
    && i < |o.leads| && o.leads[i].status == Qualified && MayHandle(o, LeadTarget(i), consultant)
    && client.Some? && client.value < |o.clients| && MayHandle(o, ClientTarget(client.value), consultant)
    && SameContact(o.clients[client.value].email, o.clients[client.value].phone, o.leads[i].email, o.leads[i].phone)
  }

  /** The lead after its conversion: nothing but its status, its client and one more history row. */
  ghost predicate LeadIsConverted(o: Office, o': Office, i: nat, c: nat) {
    && i < |o.leads|
    && o'.leads == o.leads[i := o.leads[i].(
         status := ConvertedToClient, clientId := Some(c),
         history := o.leads[i].history + [StatusChange(Some(Qualified), ConvertedToClient)])]
    && o'.bookings == o.bookings && o'.pending == o.pending
  }

  lemma ConversionHappensIff(o: Office, i: nat, client: Option<nat>, consultant: Option<StaffId>)
    requires Inv(o)
    ensures var (o', outcome) := Convert(o, i, client, consultant);
            && (outcome.Converted? <==> Creates(o, i, client, consultant) || Links(o, i, client, consultant))
            && (Creates(o, i, client, consultant) ==> outcome == Converted(|o.clients|, true))
            && (Links(o, i, client, consultant) ==> outcome == Converted(client.value, false))
            && (!outcome.Converted? ==> o' == o)
  {
    hide Inv, RowsOk, DeskOk, Holds, ActiveStaff, SameContact, ConvertTo, WithNewClient, MatchingClients, ReplayConversion;
    SyncedRows(o);
    HoldersAreFound(o.desk.rows);
    if i < |o.leads| {
      AnyClientMatches(o, i);
      if client.Some? {
        ClientMatches(o, i, client.value);
      }
    }
  }

  lemma SyncedRows(o: Office)
    requires Inv(o)
    ensures AtMostOne(o.desk.rows) && DeskOk(o)
  {
    hide RowsOk;
  }

  /** A created client has the lead's own contact columns and consultant; nobody else's data or assignment changes. */
  lemma CreatedClientIsTheLead(o: Office, i: nat, client: Option<nat>, consultant: Option<StaffId>)
    requires Inv(o) && Convert(o, i, client, consultant).1.Converted? && Convert(o, i, client, consultant).1.clientCreated
    ensures var (o', outcome) := Convert(o, i, client, consultant);
            var c := |o.clients|;
            && outcome.client == c && LeadIsConverted(o, o', i, c) && o'.clock == o.clock + 1
            && o'.clients == o.clients
               + [ClientRow(o.leads[i].email, o.leads[i].phone, StoredEmail(o.leads[i].email), StoredPhone(o.leads[i].phone), o.clock)]
            && OnlyMoves(o.desk.rows, o'.desk.rows, ClientTarget(c), TravelConsultant)
            && (forall s: StaffId :: Holds(o'.desk.rows, ClientTarget(c), TravelConsultant, s) <==>
                            Holds(o.desk.rows, LeadTarget(i), TravelConsultant, s))
  {
    hide RowsOk, Holds, ActiveStaff, MatchingClients, ReplayConversion, ConversionState;
    hide Contact.NormalizeEmail, Contact.NormalizePhone;
    LeadForms(o, i);
    NobodyHolds(o, ClientTarget(|o.clients|));
    HoldersAreFound(o.desk.rows);
    var consultant' := ActiveStaff(o.desk.rows, LeadTarget(i), TravelConsultant);
    if consultant'.Some? {
      AppendedHolds(o.desk.rows, Assignment(ClientTarget(|o.clients|), TravelConsultant, consultant'.value, false));
    }
  }

  lemma LeadForms(o: Office, i: nat)
    requires Inv(o) && i < |o.leads|
    ensures o.leads[i].normalizedEmail == StoredEmail(o.leads[i].email) && o.leads[i].normalizedPhone == StoredPhone(o.leads[i].phone)
  {
    hide DeskOk, Contact.NormalizeEmail, Contact.NormalizePhone, IsPath;
    assert LeadOk(o, i);
  }

  /** A link changes neither clients nor assignments. */
  lemma LinkedClientIsUntouched(o: Office, i: nat, client: Option<nat>, consultant: Option<StaffId>)
    requires Inv(o) && Convert(o, i, client, consultant).1.Converted? && !Convert(o, i, client, consultant).1.clientCreated
    ensures var (o', outcome) := Convert(o, i, client, consultant);
            && client == Some(outcome.client) && LeadIsConverted(o, o', i, outcome.client)
            && o'.clients == o.clients && o'.desk == o.desk
  {
    hide Inv, ActiveStaff, MatchingClients, ReplayConversion, ConversionState, WithNewClient;
  }

  /** In every later state the client made from a lead with a contact has one. */
  lemma {:induction false} CreatedClientKeepsContact(o: Office, e: Event, later: seq<Event>)
    requires Inv(o) && e.ConvertEvent? && Perform(o, e).1.Converted? && Perform(o, e).1.clientCreated
    requires e.lead < |o.leads| && HasContact(o.leads[e.lead].email, o.leads[e.lead].phone)
    ensures var now := Run(Perform(o, e).0, later);
            |o.clients| < |now.clients| && HasContact(now.clients[|o.clients|].email, now.clients[|o.clients|].phone)
  {
    hide Inv, HasContact, Convert;
    if later == [] {
      CreatedClientIsTheLead(o, e.lead, e.client, e.consultant);
    } else {
      hide Perform;
      var n := |later| - 1;
      CreatedClientKeepsContact(o, e, later[..n]);
      ClientContactIsKept(Run(Perform(o, e).0, later[..n]), later[n], |o.clients|);
    }
  }

  // ---------------------------------------------------------------- clients

  /** A client is updated exactly from the version seen, to values that leave a contact, when something changes. */
  lemma UpdateClientAnswers(
      o: Office, c: nat, seen: nat, email: Option<Option<string>>, phone: Option<Option<string>>, otherChanged: bool)
    requires Inv(o)
    ensures var (o', outcome) := UpdateClient(o, c, seen, email, phone, otherChanged);
            var condition :=
              && c < |o.clients| && o.clients[c].updatedAt == seen
              && var newEmail, newPhone := Given(email, o.clients[c].email), Given(phone, o.clients[c].phone);
                 && ((newEmail != None && newEmail != Some("")) || (newPhone != None && newPhone != Some("")))
                 && (newEmail != o.clients[c].email || newPhone != o.clients[c].phone || otherChanged);
            && (outcome == LeadOutcome.Done <==> condition)
            && (!condition ==> o' == o)
            && (condition ==>
                  var newEmail, newPhone := Given(email, o.clients[c].email), Given(phone, o.clients[c].phone);
                  o' == o.(clients := o.clients[
                             c := ClientRow(newEmail, newPhone, StoredEmail(newEmail), StoredPhone(newPhone), o.clock)],
                           clock := o.clock + 1))
  {
    hide DeskOk, Contact.NormalizeEmail, Contact.NormalizePhone;
    if c < |o.clients| {
      assert ClientOk(o, c);
    }
  }

  // ---------------------------------------------------------------- refusals: each for a reason that holds

  predicate IsEmpty(column: Option<string>) {
    column == None || column == Some("")
  }

  lemma StatusRefusals(o: Office, i: nat, next: LeadStatus, expected: LeadStatus, hasReason: bool)
    ensures match UpdateStatus(o, i, next, expected, hasReason).1
            case Done => true
            case NothingToDo => i < |o.leads| && o.leads[i].status == next
            case Rejected(Forbidden) => i >= |o.leads|
            case Rejected(Conflict) => i < |o.leads| && o.leads[i].status != expected
            case Rejected(ConversionEndpointRequired) => i < |o.leads| && o.leads[i].status == Qualified && next == ConvertedToClient
            case Rejected(InvalidTransition) => i < |o.leads| && next !in Targets(o.leads[i].status)
            case Rejected(MissingReason) => i < |o.leads| && NeedsReason(o.leads[i].status, next) && !hasReason
            case _ => false
  {
    hide Targets, NeedsReason;
  }

  lemma EditRefusals(
      o: Office, i: nat, editor: Option<StaffId>, email: Option<Option<string>>, phone: Option<Option<string>>, otherChanged: bool)
    requires Inv(o)
    ensures match BeginEdit(o, i, editor, email, phone, otherChanged).1
            case Done => true
            case NothingToDo =>
              && i < |o.leads| && !otherChanged
              && Given(email, o.leads[i].email) == o.leads[i].email && Given(phone, o.leads[i].phone) == o.leads[i].phone
            case Rejected(Forbidden) =>
              i >= |o.leads| || (editor.Some? && !Holds(o.desk.rows, LeadTarget(i), TravelConsultant, editor.value))
            case Rejected(Locked) => i < |o.leads| && o.leads[i].status == ConvertedToClient
            case Rejected(NoContactLeft) =>
              && i < |o.leads| && IsEmpty(Given(email, o.leads[i].email))
              && IsEmpty(Given(phone, o.leads[i].phone))
            case _ => false
  {
    hide RowsOk, Holds, ActiveStaff;
    HoldersAreFound(o.desk.rows);
  }

  /** A finished edit is written exactly while its editor may still handle the lead; the decided columns with their normal forms. */
  lemma FinishEditAnswers(o: Office, k: nat)
    requires Inv(o) && k < |o.pending| && o.pending[k].lead < |o.leads|
    ensures var (o', outcome) := FinishEdit(o, k);
            var patch := o.pending[k];
            var lead := o.leads[patch.lead];
            var rest := o.pending[..k] + o.pending[k + 1..];
            if MayHandle(o, LeadTarget(patch.lead), patch.editor) then
              var newEmail, newPhone := Given(patch.email, lead.email), Given(patch.phone, lead.phone);
              && outcome == LeadOutcome.Done
              && o' == o.(pending := rest, leads := o.leads[patch.lead := lead.(
                            email := newEmail, normalizedEmail := StoredEmail(newEmail),
                            phone := newPhone, normalizedPhone := StoredPhone(newPhone))])
            else outcome == Rejected(Forbidden) && o' == o.(pending := rest)
  {
    hide DeskOk, RowsOk, Holds, ActiveStaff, Contact.NormalizeEmail, Contact.NormalizePhone;
    SyncedRows(o);
    HoldersAreFound(o.desk.rows);
    LeadForms(o, o.pending[k].lead);
  }

  /** A repeat is answered with the stored client, or conflicts by naming another. */
  lemma ReplayNamesTheClient(o: Office, i: nat, client: Option<nat>)
    requires Inv(o) && i < |o.leads| && o.leads[i].status == ConvertedToClient
    ensures o.leads[i].clientId.Some?
    ensures var answer := ReplayConversion(o, i, client);
            if client in {None, o.leads[i].clientId} then answer.Replayed? && o.leads[i].clientId == Some(answer.client)
            else answer == Rejected(Conflict)
  {
    hide DeskOk, Normalised, IsPath, ReplayConversion, ConversionState;
    assert LeadOk(o, i);
    var c := o.leads[i].clientId.value;
    ConvertedLeadReplays(o, i, c, WasConverted(o, i, c, true), client);
  }

  lemma ConversionRefusals(o: Office, i: nat, client: Option<nat>, consultant: Option<StaffId>)
    requires Inv(o)
    ensures match Convert(o, i, client, consultant).1
            case Converted(_, _) => true
            case Replayed(c, _) =>
              i < |o.leads| && o.leads[i].status == ConvertedToClient && o.leads[i].clientId == Some(c) && client in {None, Some(c)}
            case Rejected(Forbidden) => i >= |o.leads| || !MayHandle(o, LeadTarget(i), consultant)
            case Rejected(Conflict) =>
              && i < |o.leads| && o.leads[i].status != Qualified
              && (o.leads[i].status == ConvertedToClient ==> client.Some? && client != o.leads[i].clientId)
            case Rejected(ClientMatchRequiresLink) =>
              && client == None && i < |o.leads|
              && exists c :: 0 <= c < |o.clients|
                             && SameContact(o.clients[c].email, o.clients[c].phone, o.leads[i].email, o.leads[i].phone)
            case Rejected(ClientLinkNotAvailable) =>
              && client.Some? && i < |o.leads|
              && !(client.value < |o.clients| && MayHandle(o, ClientTarget(client.value), consultant)
                   && SameContact(o.clients[client.value].email, o.clients[client.value].phone, o.leads[i].email, o.leads[i].phone))
            case _ => false
  {
    hide Inv, RowsOk, DeskOk, Holds, ActiveStaff, SameContact, ConvertTo, WithNewClient, MatchingClients, ReplayConversion;
    SyncedRows(o);
    HoldersAreFound(o.desk.rows);
    if i < |o.leads| {
      AnyClientMatches(o, i);
      if client.Some? {
        ClientMatches(o, i, client.value);
      }
      if o.leads[i].status == ConvertedToClient {
        ReplayNamesTheClient(o, i, client);
      }
    }
  }

  lemma ClientRefusals(
      o: Office, c: nat, seen: nat, email: Option<Option<string>>, phone: Option<Option<string>>, otherChanged: bool)
    ensures match UpdateClient(o, c, seen, email, phone, otherChanged).1
            case Done => true
            case NothingToDo =>
              && c < |o.clients| && !otherChanged
              && Given(email, o.clients[c].email) == o.clients[c].email && Given(phone, o.clients[c].phone) == o.clients[c].phone
            case Rejected(Forbidden) => c >= |o.clients|
            case Rejected(Conflict) => c < |o.clients| && o.clients[c].updatedAt != seen
            case Rejected(NoContactLeft) =>
              && c < |o.clients| && IsEmpty(Given(email, o.clients[c].email))
              && IsEmpty(Given(phone, o.clients[c].phone))
            case _ => false
  {
    hide NormEmail, NormPhone;
  }
}
