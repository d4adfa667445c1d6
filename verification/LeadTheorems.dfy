/** What holds of leads, clients, their assignments and their audit over every interleaved run. */
module LeadTheorems {
  import opened Wrappers
  import opened Assignments
  import opened Leads
  import Contact
  import Text

  datatype Event =
    | CreateLeadEvent(email: Option<string>, phone: Option<string>, consultant: Option<StaffId>)
    | BeginEditEvent(
        lead: nat, editor: Option<StaffId>, newEmail: Option<Option<string>>, newPhone: Option<Option<string>>, otherChanged: bool)
    | FinishEditEvent(edit: nat)
    | StatusEvent(lead: nat, next: LeadStatus, expected: LeadStatus, hasReason: bool)
    | ConvertEvent(lead: nat, client: Option<nat>, consultant: Option<StaffId>)
    | UpdateClientEvent(row: nat, expectedUpdatedAt: nat, newEmail: Option<Option<string>>, newPhone: Option<Option<string>>, otherChanged: bool)
    | AddBookingEvent
    | AssignEvent(target: Target, role: Role, staff: StaffId, eligible: bool, hasReason: bool)
    | ReleaseEvent(target: Target, role: Role)

  predicate Exists(o: Office, t: Target) {
    match t
    case LeadTarget(i) => i < |o.leads|
    case ClientTarget(c) => c < |o.clients|
    case BookingTarget(b) => b < o.bookings
  }

  function Perform(o: Office, e: Event): (Office, LeadOutcome) {
    match e
    case CreateLeadEvent(email, phone, consultant) => CreateLead(o, email, phone, consultant)
    case BeginEditEvent(i, editor, email, phone, otherChanged) => BeginEdit(o, i, editor, email, phone, otherChanged)
    case FinishEditEvent(k) => FinishEdit(o, k)
    case StatusEvent(i, next, expected, hasReason) => UpdateStatus(o, i, next, expected, hasReason)
    case ConvertEvent(i, client, consultant) => Convert(o, i, client, consultant)
    case UpdateClientEvent(c, at, email, phone, otherChanged) => UpdateClient(o, c, at, email, phone, otherChanged)
    case AddBookingEvent => (o.(bookings := o.bookings + 1), Done)
    case AssignEvent(t, r, staff, eligible, hasReason) =>
      (o.(desk := Assigned(o.desk, t, r, staff, Exists(o, t), eligible, hasReason).0), Done)
    case ReleaseEvent(t, r) => (o.(desk := Released(o.desk, t, r, Exists(o, t)).0), Done)
  }

  const EMPTY := Office([], [], 0, Desk([], []), [], [], 0)

  function Run(o: Office, events: seq<Event>): Office {
    if events == [] then o else Perform(Run(o, events[..|events| - 1]), events[|events| - 1]).0
  }

  // ---------------------------------------------------------------- invariants

  /** An allowed edge of the matrix, or the one edge that conversion alone takes. */
  predicate Edge(from: LeadStatus, to: LeadStatus) {
    to in Targets(from) || (from.Qualified? && to.ConvertedToClient?)
  }

  /** A connected path of allowed edges from null to the current status. */
  predicate IsPath(history: seq<StatusChange>, status: LeadStatus) {
    && history != []
    && history[0] == StatusChange(None, New)
    && (forall k | 0 < k < |history| ::
          history[k].previous == Some(history[k - 1].next) && Edge(history[k - 1].next, history[k].next))
    && history[|history| - 1].next == status
  }

  /** The stored normal forms are the normal forms of the stored values. */
  predicate Normalised(email: Option<string>, phone: Option<string>, normalizedEmail: Option<string>, normalizedPhone: Option<string>) {
    normalizedEmail == NormEmail(email) && normalizedPhone == NormPhone(phone)
  }

  /** Converted to client c, with the entry that says so. */
  predicate WasConverted(o: Office, i: nat, c: nat, clientCreated: bool) {
    && i < |o.leads| && o.leads[i].status.ConvertedToClient? && o.leads[i].clientId == Some(c) && c < |o.clients|
    && LastConversion(o.conversions, i) == Some(ConversionState(c, clientCreated))
  }

  predicate LeadOk(o: Office, i: nat)
    requires i < |o.leads|
  {
    var l := o.leads[i];
    && Normalised(l.email, l.phone, l.normalizedEmail, l.normalizedPhone)
    && IsPath(l.history, l.status)
    && (l.status.ConvertedToClient? <==> l.clientId.Some?)
    && (l.status.ConvertedToClient? ==> WasConverted(o, i, l.clientId.value, true) || WasConverted(o, i, l.clientId.value, false))
  }

  predicate ClientOk(o: Office, c: nat)
    requires c < |o.clients|
  {
    var r := o.clients[c];
    Normalised(r.email, r.phone, r.normalizedEmail, r.normalizedPhone) && r.updatedAt < o.clock
  }

  ghost predicate RowsOk(o: Office) {
    && (forall i | 0 <= i < |o.leads| :: LeadOk(o, i))
    && (forall c | 0 <= c < |o.clients| :: ClientOk(o, c))
  }

  ghost predicate DeskOk(o: Office) {
    && Synced(o.desk)
    && (forall k | 0 <= k < |o.desk.rows| :: Exists(o, o.desk.rows[k].target))
  }

  ghost predicate Inv(o: Office) {
    RowsOk(o) && DeskOk(o)
  }

  // ---------------------------------------------------------------- rows

  lemma PathGrows(history: seq<StatusChange>, status: LeadStatus, next: LeadStatus)
    requires IsPath(history, status) && Edge(status, next)
    ensures IsPath(history + [StatusChange(Some(status), next)], next)
  {
  }

  lemma LastConversionOne(entries: seq<ConversionEntry>, e: ConversionEntry, i: nat)
    ensures LastConversion(entries + [e], i) == if e.lead == i then Some(e.afterState) else LastConversion(entries, i)
  {
    assert (entries + [e])[..|entries|] == entries;
  }

  /** Leads and their conversion entries other than lead i's are as before; clients only gain rows or fresh data. */
  lemma OtherLeadsOk(o: Office, o': Office, x: nat)
    requires RowsOk(o) && x < |o.leads| <= |o'.leads| && o'.leads[x] == o.leads[x] && |o.clients| <= |o'.clients|
    requires LastConversion(o'.conversions, x) == LastConversion(o.conversions, x)
    ensures LeadOk(o', x)
  {
    assert LeadOk(o, x);
  }

  lemma CreateLeadKeepsRows(o: Office, e: Event)
    requires RowsOk(o) && e.CreateLeadEvent?
    ensures RowsOk(Perform(o, e).0)
  {
    var o' := Perform(o, e).0;
    forall x | 0 <= x < |o'.leads| ensures LeadOk(o', x) {
      if x < |o.leads| {
        OtherLeadsOk(o, o', x);
      }
    }
    forall c | 0 <= c < |o'.clients| ensures ClientOk(o', c) {
      assert ClientOk(o, c);
    }
  }

  /** Nothing but the desk and the pending edits differs. */
  lemma RowsFrame(o: Office, o': Office)
    requires RowsOk(o) && o' == o.(desk := o'.desk, pending := o'.pending, bookings := o'.bookings)
    ensures RowsOk(o')
  {
    hide IsPath, Normalised;
    forall x | 0 <= x < |o'.leads| ensures LeadOk(o', x) {
      assert LeadOk(o, x);
    }
    forall c | 0 <= c < |o'.clients| ensures ClientOk(o', c) {
      assert ClientOk(o, c);
    }
  }

  /** A written edit keeps normal forms with their values and touches nothing else of the row. */
  lemma PatchedRow(l: Lead, patch: Patch)
    requires Normalised(l.email, l.phone, l.normalizedEmail, l.normalizedPhone)
    ensures var l' := Patched(l, patch);
            && Normalised(l'.email, l'.phone, l'.normalizedEmail, l'.normalizedPhone)
            && l'.status == l.status && l'.history == l.history && l'.clientId == l.clientId
  {
    hide NormEmail, NormPhone;
  }

  lemma PatchKeepsRows(o: Office, i: nat, patch: Patch)
    requires RowsOk(o) && i < |o.leads|
    ensures RowsOk(o.(leads := o.leads[i := Patched(o.leads[i], patch)]))
  {
    hide IsPath, Normalised, Patched;
    var o' := o.(leads := o.leads[i := Patched(o.leads[i], patch)]);
    assert LeadOk(o, i);
    PatchedRow(o.leads[i], patch);
    forall x | 0 <= x < |o'.leads| ensures LeadOk(o', x) {
      assert LeadOk(o, x);
    }
    forall c | 0 <= c < |o'.clients| ensures ClientOk(o', c) {
      assert ClientOk(o, c);
    }
  }

  lemma BeginKeepsRows(o: Office, e: Event)
    requires RowsOk(o) && e.BeginEditEvent?
    ensures RowsOk(Perform(o, e).0)
  {
    hide RowsOk, MayEdit, HasContact;
    RowsFrame(o, Perform(o, e).0);
  }

  lemma FinishKeepsRows(o: Office, k: nat)
    requires RowsOk(o)
    ensures RowsOk(FinishEdit(o, k).0)
  {
    hide RowsOk, MayEdit, Patched;
    if FinishEdit(o, k).1.Done? {
      PatchKeepsRows(o, o.pending[k].lead, o.pending[k]);
      RowsFrame(o.(leads := FinishEdit(o, k).0.leads), FinishEdit(o, k).0);
    } else {
      RowsFrame(o, FinishEdit(o, k).0);
    }
  }

  lemma StatusKeepsRows(o: Office, e: Event)
    requires RowsOk(o) && e.StatusEvent?
    ensures RowsOk(Perform(o, e).0)
  {
    var o' := Perform(o, e).0;
    forall x | 0 <= x < |o'.leads| ensures LeadOk(o', x) {
      assert LeadOk(o, x);
      if x == e.lead && o' != o {
        PathGrows(o.leads[x].history, o.leads[x].status, e.next);
      }
    }
    forall c | 0 <= c < |o'.clients| ensures ClientOk(o', c) {
      assert ClientOk(o, c);
    }
  }

  lemma ConvertToKeepsRows(o: Office, i: nat, c: nat, clientCreated: bool)
    requires RowsOk(o) && i < |o.leads| && o.leads[i].status.Qualified? && c < |o.clients|
    ensures RowsOk(ConvertTo(o, i, c, clientCreated)) && WasConverted(ConvertTo(o, i, c, clientCreated), i, c, clientCreated)
  {
    hide ConversionState, Targets;
    var o' := ConvertTo(o, i, c, clientCreated);
    var entry := ConversionEntry(i, ConversionState(c, clientCreated));
    forall x | 0 <= x < |o'.leads| ensures LeadOk(o', x) {
      LastConversionOne(o.conversions, entry, x);
      if x == i {
        assert LeadOk(o, i);
        PathGrows(o.leads[i].history, o.leads[i].status, ConvertedToClient);
      } else {
        OtherLeadsOk(o, o', x);
      }
    }
    forall k | 0 <= k < |o'.clients| ensures ClientOk(o', k) {
      assert ClientOk(o, k);
    }
    LastConversionOne(o.conversions, entry, i);
  }

  lemma NewClientKeepsRows(o: Office, i: nat, consultant: Option<StaffId>)
    requires RowsOk(o) && i < |o.leads|
    ensures RowsOk(WithNewClient(o, o.leads[i], consultant))
  {
    var o' := WithNewClient(o, o.leads[i], consultant);
    assert LeadOk(o, i);
    forall x | 0 <= x < |o'.leads| ensures LeadOk(o', x) {
      OtherLeadsOk(o, o', x);
    }
    forall c | 0 <= c < |o'.clients| ensures ClientOk(o', c) {
      if c < |o.clients| {
        assert ClientOk(o, c);
      }
    }
  }

  lemma ConvertKeepsRows(o: Office, e: Event)
    requires RowsOk(o) && e.ConvertEvent?
    ensures RowsOk(Perform(o, e).0)
    ensures Perform(o, e).1.Converted? ==>
              WasConverted(Perform(o, e).0, e.lead, Perform(o, e).1.client, Perform(o, e).1.clientCreated)
  {
    hide RowsOk, ConvertTo, WithNewClient, ReplayConversion;
    if Perform(o, e).1.Converted? {
      if e.client.None? {
        var consultant := ActiveStaff(o.desk.rows, LeadTarget(e.lead), TravelConsultant);
        NewClientKeepsRows(o, e.lead, consultant);
        NewClientShape(o, e.lead, consultant);
        ConvertToKeepsRows(WithNewClient(o, o.leads[e.lead], consultant), e.lead, |o.clients|, true);
      } else {
        ConvertToKeepsRows(o, e.lead, e.client.value, false);
      }
    } else {
      NotConverted(o, e.lead, e.client, e.consultant);
    }
  }

  lemma NewClientShape(o: Office, i: nat, consultant: Option<StaffId>)
    requires i < |o.leads|
    ensures var o' := WithNewClient(o, o.leads[i], consultant);
            o'.leads == o.leads && |o'.clients| == |o.clients| + 1 && o'.conversions == o.conversions && o'.bookings == o.bookings
  {
  }

  /** Every answer but a fresh conversion leaves the office as it was. */
  lemma NotConverted(o: Office, i: nat, client: Option<nat>, consultant: Option<StaffId>)
    requires !Convert(o, i, client, consultant).1.Converted?
    ensures Convert(o, i, client, consultant).0 == o
  {
    hide ConvertTo, WithNewClient;
  }

  lemma UpdateClientKeepsRows(o: Office, e: Event)
    requires RowsOk(o) && e.UpdateClientEvent?
    ensures RowsOk(Perform(o, e).0)
  {
    var o' := Perform(o, e).0;
    forall x | 0 <= x < |o'.leads| ensures LeadOk(o', x) {
      OtherLeadsOk(o, o', x);
    }
    forall c | 0 <= c < |o'.clients| ensures ClientOk(o', c) {
      assert ClientOk(o, c);
    }
  }

  lemma DeskEventKeepsRows(o: Office, e: Event)
    requires RowsOk(o) && (e.AddBookingEvent? || e.AssignEvent? || e.ReleaseEvent?)
    ensures RowsOk(Perform(o, e).0)
  {
    hide RowsOk, Assigned, Released;
    RowsFrame(o, Perform(o, e).0);
  }

  // ---------------------------------------------------------------- assignments

  /** A target that does not exist yet has no assignment. */
  lemma UnknownIsUnassigned(o: Office, t: Target, r: Role)
    requires DeskOk(o) && !Exists(o, t)
    ensures FindActive(o.desk.rows, t, r).None?
  {
  }

  lemma DeskFrame(o: Office, o': Office)
    requires DeskOk(o) && o'.desk == o.desk
    requires |o.leads| <= |o'.leads| && |o.clients| <= |o'.clients| && o.bookings <= o'.bookings
    ensures DeskOk(o')
  {
  }

  lemma AssignedTargets(desk: Desk, t: Target, r: Role, staff: StaffId, targetExists: bool, eligible: bool, hasReason: bool)
    ensures var desk' := Assigned(desk, t, r, staff, targetExists, eligible, hasReason).0;
            forall k | 0 <= k < |desk'.rows| ::
              (k < |desk.rows| && desk'.rows[k].target == desk.rows[k].target) || (targetExists && desk'.rows[k].target == t)
    ensures var desk' := Released(desk, t, r, targetExists).0;
            |desk'.rows| == |desk.rows| && forall k | 0 <= k < |desk.rows| :: desk'.rows[k].target == desk.rows[k].target
  {
  }

  lemma AssignmentKeepsDesk(o: Office, e: Event)
    requires DeskOk(o) && (e.AssignEvent? || e.ReleaseEvent?)
    ensures DeskOk(Perform(o, e).0)
  {
    hide Assigned, Released, Synced;
    if e.AssignEvent? {
      SetKeepsSynced(o.desk, e.target, e.role, e.staff, Exists(o, e.target), e.eligible, e.hasReason);
      AssignedTargets(o.desk, e.target, e.role, e.staff, Exists(o, e.target), e.eligible, e.hasReason);
    } else {
      EndKeepsSynced(o.desk, e.target, e.role, Exists(o, e.target));
      AssignedTargets(o.desk, e.target, e.role, 0, Exists(o, e.target), true, true);
    }
  }

  lemma FirstAssignmentKeepsDesk(o: Office, o': Office, t: Target, staff: StaffId)
    requires DeskOk(o) && !Exists(o, t) && Exists(o', t) && o'.desk == Assign(o.desk, t, TravelConsultant, staff)
    requires |o.leads| <= |o'.leads| && |o.clients| <= |o'.clients| && o.bookings <= o'.bookings
    ensures DeskOk(o')
  {
    UnknownIsUnassigned(o, t, TravelConsultant);
    AssignKeepsSynced(o.desk, t, TravelConsultant, staff);
    hide Synced;
  }

  lemma CreateLeadKeepsDesk(o: Office, e: Event)
    requires DeskOk(o) && e.CreateLeadEvent?
    ensures DeskOk(Perform(o, e).0)
  {
    hide DeskOk;
    if e.consultant.Some? {
      FirstAssignmentKeepsDesk(o, Perform(o, e).0, LeadTarget(|o.leads|), e.consultant.value);
    } else {
      DeskFrame(o, Perform(o, e).0);
    }
  }

  lemma ConvertKeepsDesk(o: Office, e: Event)
    requires DeskOk(o) && e.ConvertEvent?
    ensures DeskOk(Perform(o, e).0)
  {
    hide DeskOk, ReplayConversion, MatchingClients, ConversionState;
    var o' := Perform(o, e).0;
    var c := |o.clients|;
    if o'.desk == o.desk {
      DeskFrame(o, o');
    } else {
      var consultant := ActiveStaff(o.desk.rows, LeadTarget(e.lead), TravelConsultant);
      FirstAssignmentKeepsDesk(o, o', ClientTarget(c), consultant.value);
    }
  }

  // ---------------------------------------------------------------- every run

  lemma StepKeepsInv(o: Office, e: Event)
    requires Inv(o)
    ensures Inv(Perform(o, e).0)
  {
    hide RowsOk, DeskOk, Perform;
    match e
    case CreateLeadEvent(_, _, _) => CreateLeadKeepsRows(o, e); CreateLeadKeepsDesk(o, e);
    case BeginEditEvent(_, _, _, _, _) => BeginKeepsRows(o, e); EditKeepsDesk(o, e);
    case FinishEditEvent(k) => FinishPerforms(o, e); FinishKeepsRows(o, k); EditKeepsDesk(o, e);
    case StatusEvent(_, _, _, _) => StatusKeepsRows(o, e); EditKeepsDesk(o, e);
    case ConvertEvent(_, _, _) => ConvertKeepsRows(o, e); ConvertKeepsDesk(o, e);
    case UpdateClientEvent(_, _, _, _, _) => UpdateClientKeepsRows(o, e); EditKeepsDesk(o, e);
    case AddBookingEvent => DeskEventKeepsRows(o, e); EditKeepsDesk(o, e);
    case AssignEvent(_, _, _, _, _) => DeskEventKeepsRows(o, e); AssignmentKeepsDesk(o, e);
    case ReleaseEvent(_, _) => DeskEventKeepsRows(o, e); AssignmentKeepsDesk(o, e);
  }

  lemma FinishPerforms(o: Office, e: Event)
    requires e.FinishEditEvent?
    ensures Perform(o, e) == FinishEdit(o, e.edit)
  {
    hide FinishEdit;
  }

  lemma EditKeepsDesk(o: Office, e: Event)
    requires DeskOk(o)
    requires e.BeginEditEvent? || e.FinishEditEvent? || e.StatusEvent? || e.UpdateClientEvent? || e.AddBookingEvent?
    ensures DeskOk(Perform(o, e).0)
  {
    hide DeskOk;
    DeskFrame(o, Perform(o, e).0);
  }

  lemma {:induction false} RunKeepsInv(o: Office, events: seq<Event>)
    requires Inv(o)
    ensures Inv(Run(o, events))
  {
    if events != [] {
      RunKeepsInv(o, events[..|events| - 1]);
      StepKeepsInv(Run(o, events[..|events| - 1]), events[|events| - 1]);
    }
  }

  lemma EmptyOk()
    ensures Inv(EMPTY)
  {
  }

  /** After any run, the assignment audit replays to exactly the active staff member of every target and role. */
  lemma AuditReplaysToActive(events: seq<Event>, t: Target, r: Role)
    ensures var o := Run(EMPTY, events);
            AtMostOne(o.desk.rows) && Replay(o.desk.audit, t, r) == ActiveStaff(o.desk.rows, t, r)
  {
    EmptyOk();
    RunKeepsInv(EMPTY, events);
  }

  /** After any run, overlapping edits included, stored normal forms agree with stored values. */
  lemma NormalFormsAgree(events: seq<Event>)
    ensures var o := Run(EMPTY, events);
            && (forall i | 0 <= i < |o.leads| ::
                  var l := o.leads[i]; Normalised(l.email, l.phone, l.normalizedEmail, l.normalizedPhone))
            && (forall c | 0 <= c < |o.clients| ::
                  var r := o.clients[c]; Normalised(r.email, r.phone, r.normalizedEmail, r.normalizedPhone))
  {
    EmptyOk();
    RunKeepsInv(EMPTY, events);
    var o := Run(EMPTY, events);
    forall i | 0 <= i < |o.leads| ensures var l := o.leads[i]; Normalised(l.email, l.phone, l.normalizedEmail, l.normalizedPhone) {
      assert LeadOk(o, i);
    }
    forall c | 0 <= c < |o.clients| ensures var r := o.clients[c]; Normalised(r.email, r.phone, r.normalizedEmail, r.normalizedPhone) {
      assert ClientOk(o, c);
    }
  }

  /** Raw values that share a non-empty normal form. */
  predicate SameContact(email: Option<string>, phone: Option<string>, email': Option<string>, phone': Option<string>) {
    || (Filled(email) && Filled(email')
        && Contact.NormalizeEmail(email.value) == Contact.NormalizeEmail(email'.value) != "")
    || (Filled(phone) && Filled(phone')
        && Contact.NormalizePhone(phone.value) == Contact.NormalizePhone(phone'.value) != "")
  }

  /** After any run the duplicate lookups return exactly the other records that share a non-empty normal form. */
  lemma DuplicatesAreExact(
      events: seq<Event>, email: Option<string>, phone: Option<string>, exclude: Option<nat>, client: Option<nat>, i: nat)
    ensures var o := Run(EMPTY, events);
            i in MatchingLeads(o.leads, NormEmail(email), NormPhone(phone), exclude, client) <==>
            && i < |o.leads| && Some(i) != exclude && (client.None? || o.leads[i].clientId != client)
            && SameContact(o.leads[i].email, o.leads[i].phone, email, phone)
    ensures var o := Run(EMPTY, events);
            i in MatchingClients(o.clients, NormEmail(email), NormPhone(phone), exclude) <==>
            i < |o.clients| && Some(i) != exclude && SameContact(o.clients[i].email, o.clients[i].phone, email, phone)
  {
    hide Run, Contact.NormalizeEmail, Contact.NormalizePhone;
    NormalFormsAgree(events);
  }

  /** After any run a lead's history is a connected path to its status, and it is converted exactly when it has a client. */
  lemma HistoryIsAPath(events: seq<Event>, i: nat)
    requires i < |Run(EMPTY, events).leads|
    ensures var l := Run(EMPTY, events).leads[i];
            IsPath(l.history, l.status) && (l.status.ConvertedToClient? <==> l.clientId.Some?)
  {
    EmptyOk();
    RunKeepsInv(EMPTY, events);
    assert LeadOk(Run(EMPTY, events), i);
  }

  // ---------------------------------------------------------------- conversion

  lemma SameSize<T>(a: set<T>, b: set<T>)
    requires a <= b && |a| == |b|
    ensures a == b
  {
    assert b == a + (b - a);
    assert |b - a| == 0;
  }

  /** What a conversion writes parses back, and the parser accepts exactly the closed shape. */
  lemma ConversionStateRoundTrip(value: Json, client: nat, clientCreated: bool)
    ensures ParseConversionState(ConversionState(client, clientCreated)) == Some((Text.Decimal(client), clientCreated))
    ensures ParseConversionState(value) == Some((Text.Decimal(client), clientCreated)) <==> value == ConversionState(client, clientCreated)
  {
    var written := ConversionState(client, clientCreated);
    assert written.fields.Keys == CONVERSION_KEYS;
    if ParseConversionState(value) == Some((Text.Decimal(client), clientCreated)) {
      SameSize(value.fields.Keys, CONVERSION_KEYS);
      assert value.fields == written.fields;
    }
  }

  /** A converted lead answers a repeated conversion from its entry; the request may name the same client or none. */
  lemma ConvertedLeadReplays(o: Office, i: nat, c: nat, clientCreated: bool, client: Option<nat>)
    requires WasConverted(o, i, c, clientCreated)
    ensures ReplayConversion(o, i, client) ==
            if client.Some? && client.value != c then Rejected(Conflict) else Replayed(c, clientCreated)
  {
    hide ConversionState, ParseConversionState;
    ConversionStateRoundTrip(Null, c, clientCreated);
  }

  /** A fresh conversion touches one qualified lead and appends its entry. */
  lemma FreshConversion(o: Office, i: nat, client: Option<nat>, consultant: Option<StaffId>)
    requires Convert(o, i, client, consultant).1.Converted?
    ensures var (o', answer) := Convert(o, i, client, consultant);
            && i < |o.leads| == |o'.leads| && o.leads[i].status.Qualified?
            && (forall x | 0 <= x < |o.leads| && x != i :: o'.leads[x] == o.leads[x])
            && |o.clients| <= |o'.clients|
            && o'.conversions == o.conversions + [ConversionEntry(i, ConversionState(answer.client, answer.clientCreated))]
  {
    hide ConversionState, MatchingClients, Assign, ReplayConversion;
  }

  lemma ConversionStays(o: Office, e: Event, i: nat, c: nat, clientCreated: bool)
    requires RowsOk(o) && WasConverted(o, i, c, clientCreated)
    ensures WasConverted(Perform(o, e).0, i, c, clientCreated)
  {
    hide RowsOk, ConversionState, Assigned, Released, Convert;
    if e.ConvertEvent? {
      var (o', answer) := Convert(o, e.lead, e.client, e.consultant);
      if answer.Converted? {
        FreshConversion(o, e.lead, e.client, e.consultant);
        LastConversionOne(o.conversions, ConversionEntry(e.lead, ConversionState(answer.client, answer.clientCreated)), i);
      } else {
        NotConverted(o, e.lead, e.client, e.consultant);
      }
    }
  }

  /**
   * Whatever happens after a conversion, a repeat is answered with the original client and the original
   * created flag, without writing, unless it is refused for access or names another client.
   */
  lemma {:induction false} ConversionIsIdempotent(
      o: Office, e: Event, later: seq<Event>, client: Option<nat>, consultant: Option<StaffId>)
    requires Inv(o) && e.ConvertEvent? && Perform(o, e).1.Converted?
    ensures var now := Run(Perform(o, e).0, later);
            var (after, answer) := Convert(now, e.lead, client, consultant);
            && WasConverted(now, e.lead, Perform(o, e).1.client, Perform(o, e).1.clientCreated)
            && after == now
            && (answer == Replayed(Perform(o, e).1.client, Perform(o, e).1.clientCreated)
                || answer == Rejected(Forbidden) || answer == Rejected(ClientLinkNotAvailable)
                || (answer == Rejected(Conflict) && client.Some? && client != Some(Perform(o, e).1.client)))
  {
    hide RowsOk, DeskOk, Perform;
    var c, created := Perform(o, e).1.client, Perform(o, e).1.clientCreated;
    StepKeepsInv(o, e);
    ConvertKeepsRows(o, e);
    RunKeepsConversion(Perform(o, e).0, later, e.lead, c, created);
    var now := Run(Perform(o, e).0, later);
    AnswerAfterConversion(now, e.lead, c, created, client, consultant);
  }

  lemma AnswerAfterConversion(o: Office, i: nat, c: nat, clientCreated: bool, client: Option<nat>, consultant: Option<StaffId>)
    requires WasConverted(o, i, c, clientCreated)
    ensures var (after, answer) := Convert(o, i, client, consultant);
            && after == o
            && (answer == Replayed(c, clientCreated) || answer == Rejected(Forbidden) || answer == Rejected(ClientLinkNotAvailable)
                || (answer == Rejected(Conflict) && client.Some? && client != Some(c)))
  {
    hide ReplayConversion, ConvertTo, WithNewClient, MatchingClients;
    ConvertedLeadReplays(o, i, c, clientCreated, client);
  }

  lemma {:induction false} RunKeepsConversion(o: Office, later: seq<Event>, i: nat, c: nat, clientCreated: bool)
    requires Inv(o) && WasConverted(o, i, c, clientCreated)
    ensures WasConverted(Run(o, later), i, c, clientCreated)
  {
    hide RowsOk, DeskOk, Perform, WasConverted;
    if later != [] {
      var n := |later| - 1;
      RunKeepsConversion(o, later[..n], i, c, clientCreated);
      RunKeepsInv(o, later[..n]);
      ConversionStays(Run(o, later[..n]), later[n], i, c, clientCreated);
    }
  }

  // ---------------------------------------------------------------- contact rules

  /** A client that has an e-mail address or a phone number keeps one under every event. */
  lemma ClientContactIsKept(o: Office, e: Event, c: nat)
    requires c < |o.clients| && HasContact(o.clients[c].email, o.clients[c].phone)
    ensures c < |Perform(o, e).0.clients|
    ensures HasContact(Perform(o, e).0.clients[c].email, Perform(o, e).0.clients[c].phone)
  {
    hide Assigned, Released, MatchingClients, ReplayConversion, ConversionState;
  }

  /** The contact columns an edit leaves: its own where it writes one, the row's present ones elsewhere. */
  function EmailLeft(row: Lead, patch: Patch): Option<string> {
    if patch.email.Some? then patch.email.value else row.email
  }

  function PhoneLeft(row: Lead, patch: Patch): Option<string> {
    if patch.phone.Some? then patch.phone.value else row.phone
  }

  /** The event writes a pending edit of the existing lead i, whose editor still may. */
  predicate Finishes(o: Office, e: Event, i: nat) {
    && e.FinishEditEvent? && e.edit < |o.pending| && o.pending[e.edit].lead == i < |o.leads|
    && MayEdit(o.desk, i, o.pending[e.edit].editor)
  }

  /** What each event does to the contact columns and the lock of an existing lead. */
  lemma ContactColumns(o: Office, e: Event, i: nat)
    requires i < |o.leads|
    ensures var o' := Perform(o, e).0;
            && i < |o'.leads|
            && (Finishes(o, e, i) ==> o'.leads[i].email == EmailLeft(o.leads[i], o.pending[e.edit])
                                      && o'.leads[i].phone == PhoneLeft(o.leads[i], o.pending[e.edit]))
            && (!Finishes(o, e, i) ==> o'.leads[i].email == o.leads[i].email && o'.leads[i].phone == o.leads[i].phone)
            && (o'.leads[i].status.ConvertedToClient? <==>
                o.leads[i].status.ConvertedToClient? || (e.ConvertEvent? && e.lead == i && Perform(o, e).1.Converted?))
  {
    hide Assigned, Released, MatchingClients, ReplayConversion, ConversionState, NormEmail, NormPhone;
  }

  /** A lead loses its last contact exactly when an edit is written that leaves none of the columns filled. */
  lemma ContactIsLostIff(o: Office, e: Event, i: nat)
    requires i < |o.leads| && HasContact(o.leads[i].email, o.leads[i].phone)
    ensures var o' := Perform(o, e).0;
            && i < |o'.leads|
            && (!HasContact(o'.leads[i].email, o'.leads[i].phone) <==>
                && Finishes(o, e, i)
                && !Filled(EmailLeft(o.leads[i], o.pending[e.edit])) && !Filled(PhoneLeft(o.leads[i], o.pending[e.edit])))
  {
    hide Perform, Finishes;
    ContactColumns(o, e, i);
  }

  /** A converted lead's contact columns change exactly when an edit with a different column is written to it. */
  lemma LockedColumnsChangeIff(o: Office, e: Event, i: nat)
    requires i < |o.leads| && o.leads[i].status.ConvertedToClient?
    ensures var o' := Perform(o, e).0;
            && i < |o'.leads| && o'.leads[i].status.ConvertedToClient?
            && (o'.leads[i].email != o.leads[i].email || o'.leads[i].phone != o.leads[i].phone <==>
                && Finishes(o, e, i)
                && ((o.pending[e.edit].email.Some? && o.pending[e.edit].email.value != o.leads[i].email)
                    || (o.pending[e.edit].phone.Some? && o.pending[e.edit].phone.value != o.leads[i].phone)))
  {
    hide Perform, Finishes;
    ContactColumns(o, e, i);
  }

  /**
   * For each pending edit, whether its lead is as it was when the edit was decided: no other edit of the lead was
   * written since, and the lead was not converted.
   */
  function CleanAfter(o: Office, clean: seq<bool>, e: Event): (clean': seq<bool>)
    requires |clean| == |o.pending|
    ensures |clean'| == |Perform(o, e).0.pending|
  {
    hide Assigned, Released, MatchingClients, ReplayConversion, ConversionState, NormEmail, NormPhone;
    match e
    case BeginEditEvent(_, _, _, _, _) => if Perform(o, e).1.Done? then clean + [true] else clean
    case FinishEditEvent(k) =>
      if k >= |o.pending| || o.pending[k].lead >= |o.leads| then clean
      else
        var others := if Finishes(o, e, o.pending[k].lead) then StaleFor(o, clean, o.pending[k].lead) else clean;
        others[..k] + others[k + 1..]
    case ConvertEvent(i, _, _) => if Perform(o, e).1.Converted? then StaleFor(o, clean, i) else clean
    case _ => clean
  }

  function StaleFor(o: Office, clean: seq<bool>, lead: nat): (clean': seq<bool>)
    requires |clean| == |o.pending|
    ensures |clean'| == |clean| && forall k | 0 <= k < |clean| :: clean'[k] <==> clean[k] && o.pending[k].lead != lead
  {
    seq(|clean|, k requires 0 <= k < |clean| => clean[k] && o.pending[k].lead != lead)
  }

  function Clean(events: seq<Event>): (clean: seq<bool>)
    ensures |clean| == |Run(EMPTY, events).pending|
  {
    if events == [] then []
    else CleanAfter(Run(EMPTY, events[..|events| - 1]), Clean(events[..|events| - 1]), events[|events| - 1])
  }

  /** The event writes no edit whose lead was edited or converted in between. */
  predicate WritesClean(clean: seq<bool>, e: Event) {
    e.FinishEditEvent? && e.edit < |clean| ==> clean[e.edit]
  }

  /** Every edit of the run is written before another edit or the conversion of its lead. */
  predicate Serial(events: seq<Event>) {
    forall n | 0 <= n < |events| :: WritesClean(Clean(events[..n]), events[n])
  }

  /** A clean edit may still be written: its lead is open, and will have a contact. */
  ghost predicate CleanOk(o: Office, clean: seq<bool>) {
    && |clean| == |o.pending|
    && forall k | 0 <= k < |clean| && clean[k] ::
         && o.pending[k].lead < |o.leads|
         && !o.leads[o.pending[k].lead].status.ConvertedToClient?
         && HasContact(EmailLeft(o.leads[o.pending[k].lead], o.pending[k]), PhoneLeft(o.leads[o.pending[k].lead], o.pending[k]))
  }

  /** Only the two halves of an edit touch the pending ones. */
  lemma PendingUnmoved(o: Office, e: Event)
    requires !e.FinishEditEvent? && !(e.BeginEditEvent? && Perform(o, e).1.Done?)
    ensures Perform(o, e).0.pending == o.pending
  {
    hide Assigned, Released, MatchingClients, ReplayConversion, ConversionState, NormEmail, NormPhone, MayEdit, HasContact;
  }

  /** A finished edit leaves the pending ones whether it was written or refused. */
  lemma RestOfPending(o: Office, e: Event)
    requires e.FinishEditEvent?
    ensures var taken := e.edit < |o.pending| && o.pending[e.edit].lead < |o.leads|;
            && Perform(o, e).0.pending == (if taken then o.pending[..e.edit] + o.pending[e.edit + 1..] else o.pending)
            && (taken && !Finishes(o, e, o.pending[e.edit].lead) ==> forall i :: !Finishes(o, e, i))
            && (forall i :: Finishes(o, e, i) ==> taken && o.pending[e.edit].lead == i)
  {
  }

  /** The edit that stands at k after one was taken out. */
  lemma PendingAfterFinish(o: Office, clean: seq<bool>, e: Event, k: nat) returns (was: nat)
    requires e.FinishEditEvent? && |clean| == |o.pending| && k < |Perform(o, e).0.pending| && CleanAfter(o, clean, e)[k]
    ensures was < |o.pending| && Perform(o, e).0.pending[k] == o.pending[was] && clean[was]
    ensures !Finishes(o, e, o.pending[was].lead)
  {
    hide Perform, Finishes;
    RestOfPending(o, e);
    if e.edit < |o.pending| && o.pending[e.edit].lead < |o.leads| {
      var lead := o.pending[e.edit].lead;
      var others := if Finishes(o, e, lead) then StaleFor(o, clean, lead) else clean;
      was := if k >= e.edit then k + 1 else k;
      Removed(o.pending, e.edit, k);
      Removed(others, e.edit, k);
    } else {
      was := k;
    }
  }

  lemma Removed<T>(xs: seq<T>, i: nat, k: nat)
    requires i < |xs| && k < |xs| - 1
    ensures (xs[..i] + xs[i + 1..])[k] == xs[if k >= i then k + 1 else k]
  {
  }

  lemma PendingAfter(o: Office, clean: seq<bool>, e: Event, k: nat) returns (was: nat)
    requires |clean| == |o.pending| && k < |Perform(o, e).0.pending| && CleanAfter(o, clean, e)[k]
    ensures || (e.BeginEditEvent? && Perform(o, e).1.Done? && k == |o.pending|)
            || (was < |o.pending| && Perform(o, e).0.pending[k] == o.pending[was] && clean[was]
                && !Finishes(o, e, o.pending[was].lead)
                && !(e.ConvertEvent? && Perform(o, e).1.Converted? && e.lead == o.pending[was].lead))
  {
    if e.FinishEditEvent? {
      hide Perform, CleanAfter;
      was := PendingAfterFinish(o, clean, e, k);
    } else {
      was := k;
      if e.BeginEditEvent? && Perform(o, e).1.Done? {
        hide Perform;
        AcceptedEdit(o, e);
      } else {
        hide Perform;
        PendingUnmoved(o, e);
      }
    }
  }

  /** An edit is accepted only while its lead is open, with columns that leave it a contact. */
  lemma AcceptedEdit(o: Office, e: Event)
    requires e.BeginEditEvent? && Perform(o, e).1.Done?
    ensures var o' := Perform(o, e).0;
            && o'.leads == o.leads && |o'.pending| == |o.pending| + 1 && o.pending <= o'.pending && e.lead < |o.leads|
            && var patch := o'.pending[|o.pending|];
               && patch.lead == e.lead && !o.leads[e.lead].status.ConvertedToClient?
               && HasContact(EmailLeft(o.leads[e.lead], patch), PhoneLeft(o.leads[e.lead], patch))
  {
  }

  lemma StepKeepsClean(o: Office, clean: seq<bool>, e: Event)
    requires CleanOk(o, clean) && WritesClean(clean, e)
    ensures CleanOk(Perform(o, e).0, CleanAfter(o, clean, e))
  {
    hide Perform, CleanAfter, HasContact;
    var o', clean' := Perform(o, e).0, CleanAfter(o, clean, e);
    forall k: nat | k < |clean'| && clean'[k]
      ensures o'.pending[k].lead < |o'.leads|
      ensures !o'.leads[o'.pending[k].lead].status.ConvertedToClient?
      ensures HasContact(EmailLeft(o'.leads[o'.pending[k].lead], o'.pending[k]), PhoneLeft(o'.leads[o'.pending[k].lead], o'.pending[k]))
    {
      var was := PendingAfter(o, clean, e, k);
      if e.BeginEditEvent? && Perform(o, e).1.Done? && k == |o.pending| {
        AcceptedEdit(o, e);
      } else {
        ContactColumns(o, e, o.pending[was].lead);
      }
    }
  }

  /** Such a step takes no lead's last contact and changes nothing of a converted lead. */
  lemma CleanStepKeepsTheRules(o: Office, clean: seq<bool>, e: Event, i: nat)
    requires CleanOk(o, clean) && WritesClean(clean, e) && i < |o.leads|
    ensures var o' := Perform(o, e).0;
            && i < |o'.leads|
            && (HasContact(o.leads[i].email, o.leads[i].phone) ==> HasContact(o'.leads[i].email, o'.leads[i].phone))
            && (o.leads[i].status.ConvertedToClient? ==>
                o'.leads[i].status.ConvertedToClient? && o'.leads[i].email == o.leads[i].email && o'.leads[i].phone == o.leads[i].phone)
  {
    hide Perform, HasContact;
    ContactColumns(o, e, i);
  }

  lemma {:induction false} SerialRunIsClean(events: seq<Event>)
    requires Serial(events)
    ensures CleanOk(Run(EMPTY, events), Clean(events))
  {
    hide CleanOk, Perform, CleanAfter, WritesClean;
    if events == [] {
      NothingPending();
    } else {
      var n := |events| - 1;
      SerialPrefix(events, n);
      SerialRunIsClean(events[..n]);
      assert WritesClean(Clean(events[..n]), events[n]);
      StepKeepsClean(Run(EMPTY, events[..n]), Clean(events[..n]), events[n]);
    }
  }

  lemma NothingPending()
    ensures CleanOk(Run(EMPTY, []), Clean([]))
  {
  }

  lemma SerialPrefix(events: seq<Event>, n: nat)
    requires Serial(events) && n <= |events|
    ensures Serial(events[..n])
  {
    hide Clean, WritesClean;
    forall m | 0 <= m < n ensures WritesClean(Clean(events[..n][..m]), events[..n][m]) {
      assert events[..n][..m] == events[..m];
    }
  }

  /**
   * Edits that do not overlap another edit or the conversion of their lead keep both rules: a lead that ever has a
   * contact keeps one, and from its conversion on its contact columns never change.
   */
  lemma {:induction false} SerialEditsKeepTheRules(events: seq<Event>, n: nat, i: nat)
    requires Serial(events) && n <= |events| && i < |Run(EMPTY, events[..n]).leads|
    ensures var before := Run(EMPTY, events[..n]).leads[i];
            var now := Run(EMPTY, events);
            && i < |now.leads|
            && (HasContact(before.email, before.phone) ==> HasContact(now.leads[i].email, now.leads[i].phone))
            && (before.status.ConvertedToClient? ==>
                now.leads[i].status.ConvertedToClient? && now.leads[i].email == before.email && now.leads[i].phone == before.phone)
    decreases |events|
  {
    hide CleanOk, Perform, CleanAfter, WritesClean, HasContact, Clean;
    if n == |events| {
      assert events[..n] == events;
    } else {
      var last := |events| - 1;
      SerialPrefix(events, last);
      assert events[..last][..n] == events[..n];
      SerialEditsKeepTheRules(events[..last], n, i);
      SerialRunIsClean(events[..last]);
      assert WritesClean(Clean(events[..last]), events[last]);
      CleanStepKeepsTheRules(Run(EMPTY, events[..last]), Clean(events[..last]), events[last], i);
    }
  }

  /** Two edits that overlap can clear both: each was decided while the other contact was still there. */
  lemma OverlappingEditsClearBothContacts()
    ensures var lead := CreateLeadEvent(Some("a@b.c"), Some("0917"), None);
            var o := Run(EMPTY, [lead, BeginEditEvent(0, None, Some(None), None, false), BeginEditEvent(0, None, None, Some(None), false),
                                 FinishEditEvent(0), FinishEditEvent(0)]);
            |o.leads| == 1 && !HasContact(o.leads[0].email, o.leads[0].phone)
  {
    hide NormEmail, NormPhone, Run, Assign, Assigned, Released, UpdateStatus, Convert, UpdateClient;
    var lead := CreateLeadEvent(Some("a@b.c"), Some("0917"), None);
    var es := [lead, BeginEditEvent(0, None, Some(None), None, false), BeginEditEvent(0, None, None, Some(None), false),
               FinishEditEvent(0), FinishEditEvent(0)];
    assert es[..5] == es && es[..0] == [];
    RunNothing(EMPTY);
    RunOne(EMPTY, es, 1);
    var o1 := Run(EMPTY, es[..1]);
    assert |o1.leads| == 1 && Filled(o1.leads[0].email) && Filled(o1.leads[0].phone) && o1.pending == [];
    RunOne(EMPTY, es, 2);
    RunOne(EMPTY, es, 3);
    var o3 := Run(EMPTY, es[..3]);
    assert o3.leads == o1.leads && o3.pending == [Patch(0, None, Some(None), None), Patch(0, None, None, Some(None))];
    RunOne(EMPTY, es, 4);
    assert Run(EMPTY, es[..4]).pending == [Patch(0, None, None, Some(None))];
    RunOne(EMPTY, es, 5);
  }

  lemma RunNothing(o: Office)
    ensures Run(o, []) == o
  {
  }

  lemma RunOne(o: Office, events: seq<Event>, n: nat)
    requires 0 < n <= |events|
    ensures Run(o, events[..n]) == Perform(Run(o, events[..n - 1]), events[n - 1]).0
  {
    assert events[..n][..n - 1] == events[..n - 1];
  }

  /** An edit decided before a conversion is still written after it: the locked lead gets a new address. */
  lemma LateEditReachesConvertedLead()
    ensures var es := [CreateLeadEvent(Some("a@b.c"), Some("0917"), None), StatusEvent(0, Qualified, New, false),
                       BeginEditEvent(0, None, Some(Some("new@b.c")), None, false), ConvertEvent(0, None, None), FinishEditEvent(0)];
            var converted, o := Run(EMPTY, es[..4]), Run(EMPTY, es);
            && |converted.leads| == 1 == |o.leads| && converted.leads[0].status.ConvertedToClient? && o.leads[0].status.ConvertedToClient?
            && converted.leads[0].email == Some("a@b.c") && o.leads[0].email == Some("new@b.c")
  {
    hide NormEmail, NormPhone, Run, ConversionState, ActiveStaff, Assign, Assigned, Released, UpdateClient, ReplayConversion;
    var es := [CreateLeadEvent(Some("a@b.c"), Some("0917"), None), StatusEvent(0, Qualified, New, false),
               BeginEditEvent(0, None, Some(Some("new@b.c")), None, false), ConvertEvent(0, None, None), FinishEditEvent(0)];
    assert es[..5] == es && es[..0] == [];
    RunNothing(EMPTY);
    RunOne(EMPTY, es, 1);
    RunOne(EMPTY, es, 2);
    var o2 := Run(EMPTY, es[..2]);
    assert |o2.leads| == 1 && o2.leads[0].status.Qualified? && o2.leads[0].email == Some("a@b.c") && o2.pending == [] && o2.clients == [];
    RunOne(EMPTY, es, 3);
    var o3 := Run(EMPTY, es[..3]);
    assert o3.leads == o2.leads && o3.clients == [] && o3.pending == [Patch(0, None, Some(Some("new@b.c")), None)];
    RunOne(EMPTY, es, 4);
    RunOne(EMPTY, es, 5);
  }
}
