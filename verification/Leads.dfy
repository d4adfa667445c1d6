/**
 * Leads and clients: status changes with history, edits of contact data, duplicate lookups and the conversion
 * of a lead to a client. Each specification function is one transaction; a lead edit reads before its
 * transaction and writes in it, so it takes two.
 */
module Leads {
  import opened Wrappers
  import opened Assignments
  import Contact
  import Text

  datatype LeadStatus =
    | New | UnderReview | Contacted | ConsultationScheduled | Qualified | ConvertedToClient
    | NotProceeding | Duplicate | Spam | Archived

  function Targets(from: LeadStatus): set<LeadStatus> {
    match from
    case New => {UnderReview, Contacted, ConsultationScheduled, Qualified, NotProceeding, Duplicate, Spam, Archived}
    case UnderReview => {Contacted, ConsultationScheduled, Qualified, NotProceeding, Duplicate, Spam, Archived}
    case Contacted => {ConsultationScheduled, Qualified, NotProceeding, Duplicate, Spam, Archived}
    case ConsultationScheduled => {Qualified, NotProceeding, Duplicate, Spam, Archived}
    case Qualified => {NotProceeding, Duplicate, Spam, Archived}
    case ConvertedToClient => {}
    case NotProceeding => {UnderReview, LeadStatus.Archived}
    case Duplicate => {UnderReview, LeadStatus.Archived}
    case Spam => {UnderReview, LeadStatus.Archived}
    case Archived => {UnderReview}
  }

  predicate NeedsReason(from: LeadStatus, to: LeadStatus) {
    match from
    case New => to.Duplicate? || to.Spam?
    case UnderReview => to.Duplicate? || to.Spam?
    case Contacted => to.Duplicate? || to.Spam?
    case ConsultationScheduled => to.Duplicate? || to.Spam?
    case Qualified => to.Duplicate? || to.Spam?
    case ConvertedToClient => false
    case NotProceeding => to.UnderReview?
    case Duplicate => to.UnderReview?
    case Spam => to.UnderReview?
    case Archived => to.UnderReview?
  }

  datatype StatusChange = StatusChange(previous: Option<LeadStatus>, next: LeadStatus)

  datatype Lead = Lead(
    status: LeadStatus, email: Option<string>, phone: Option<string>, normalizedEmail: Option<string>,
    normalizedPhone: Option<string>, clientId: Option<nat>, history: seq<StatusChange>)

  datatype ClientRow = ClientRow(
    email: Option<string>, phone: Option<string>, normalizedEmail: Option<string>, normalizedPhone: Option<string>, updatedAt: nat)

  /** JSON as the audit log stores it. */
  datatype Json = Null | Bool(b: bool) | Number(n: int) | Str(s: string) | Array(items: seq<Json>) | Object(fields: map<string, Json>)

  datatype ConversionEntry = ConversionEntry(lead: nat, afterState: Json)

  /**
   * The columns an edit decided to write, with the consultant who edits, if one does; a provided but unchanged
   * column is not among them.
   */
  datatype Patch = Patch(lead: nat, editor: Option<StaffId>, email: Option<Option<string>>, phone: Option<Option<string>>)

  datatype Office = Office(
    leads: seq<Lead>, clients: seq<ClientRow>, bookings: nat, desk: Desk, conversions: seq<ConversionEntry>,
    pending: seq<Patch>, clock: nat)

  datatype LeadError =
    | Forbidden | Locked | NoContactLeft | Conflict | ConversionEndpointRequired | InvalidTransition | MissingReason
    | ClientMatchRequiresLink | ClientLinkNotAvailable

  datatype LeadOutcome =
    | Done
    | NothingToDo
    | Rejected(error: LeadError)
    | Converted(client: nat, clientCreated: bool)
    | Replayed(client: nat, clientCreated: bool)

  // ---------------------------------------------------------------- contact columns

  predicate Filled(v: Option<string>) {
    v.Some? && v.value != ""
  }

  function NormEmail(v: Option<string>): Option<string> {
    if Filled(v) then Some(Contact.NormalizeEmail(v.value)) else None
  }

  function NormPhone(v: Option<string>): Option<string> {
    if Filled(v) then Some(Contact.NormalizePhone(v.value)) else None
  }

  predicate HasContact(email: Option<string>, phone: Option<string>) {
    Filled(email) || Filled(phone)
  }

  /** Whether stored normal forms match the searched ones; an empty form is never searched for. */
  predicate Matches(email: Option<string>, phone: Option<string>, e: Option<string>, p: Option<string>) {
    (Filled(e) && email == e) || (Filled(p) && phone == p)
  }

  /** Ids of clients whose normalised email or phone equals a searched one, without the excluded client. */
  function MatchingClients(clients: seq<ClientRow>, e: Option<string>, p: Option<string>, exclude: Option<nat>): (ids: seq<nat>)
    ensures forall i: nat :: i in ids <==>
              i < |clients| && Matches(clients[i].normalizedEmail, clients[i].normalizedPhone, e, p) && Some(i) != exclude
  {
    if clients == [] then []
    else
      var n := |clients| - 1;
      MatchingClients(clients[..n], e, p, exclude)
      + if Matches(clients[n].normalizedEmail, clients[n].normalizedPhone, e, p) && Some(n) != exclude then [n] else []
  }

  /** Ids of leads that match, without the excluded lead and without the leads of the excluded client. */
  function MatchingLeads(leads: seq<Lead>, e: Option<string>, p: Option<string>, exclude: Option<nat>, client: Option<nat>): (ids: seq<nat>)
    ensures forall i: nat :: i in ids <==>
              && i < |leads| && Matches(leads[i].normalizedEmail, leads[i].normalizedPhone, e, p)
              && Some(i) != exclude && (client.None? || leads[i].clientId != client)
  {
    if leads == [] then []
    else
      var n := |leads| - 1;
      MatchingLeads(leads[..n], e, p, exclude, client)
      + if Matches(leads[n].normalizedEmail, leads[n].normalizedPhone, e, p)
           && Some(n) != exclude && (client.None? || leads[n].clientId != client) then [n] else []
  }

  // ---------------------------------------------------------------- the conversion audit entry

  function ConversionState(client: nat, clientCreated: bool): Json {
    Object(map["status" := Str("CONVERTED_TO_CLIENT"), "clientId" := Str(Text.Decimal(client)), "clientCreated" := Bool(clientCreated)])
  }

  const CONVERSION_KEYS: set<string> := {"status", "clientId", "clientCreated"}

  /** Exactly the closed shape, or nothing. */
  function ParseConversionState(value: Json): Option<(string, bool)> {
    if !value.Object? then None
    else
      var f := value.fields;
      if |f.Keys| != |CONVERSION_KEYS| || !(f.Keys <= CONVERSION_KEYS) then None
      else if "status" !in f || f["status"] != Str("CONVERTED_TO_CLIENT") then None
      else if "clientId" !in f || !f["clientId"].Str? then None
      else if "clientCreated" !in f || !f["clientCreated"].Bool? then None
      else Some((f["clientId"].s, f["clientCreated"].b))
  }

  /** The latest conversion entry of a lead. */
  function LastConversion(entries: seq<ConversionEntry>, lead: nat): Option<Json> {
    if entries == [] then None
    else if entries[|entries| - 1].lead == lead then Some(entries[|entries| - 1].afterState)
    else LastConversion(entries[..|entries| - 1], lead)
  }

  // ---------------------------------------------------------------- leads

  /** A consultant's own lead is assigned to them as it is created. */
  function CreateLead(o: Office, email: Option<string>, phone: Option<string>, consultant: Option<StaffId>): (Office, LeadOutcome) {
    var lead := Lead(New, email, phone, NormEmail(email), NormPhone(phone), None, [StatusChange(None, New)]);
    var desk := if consultant.Some? then Assign(o.desk, LeadTarget(|o.leads|), TravelConsultant, consultant.value) else o.desk;
    (o.(leads := o.leads + [lead], desk := desk), Done)
  }

  predicate AssignedTo(desk: Desk, t: Target, staff: StaffId) {
    ActiveStaff(desk.rows, t, TravelConsultant) == Some(staff)
  }

  /** A consultant may edit a lead only while assigned to it; a manager any. */
  predicate MayEdit(desk: Desk, i: nat, editor: Option<StaffId>) {
    editor.Some? ==> AssignedTo(desk, LeadTarget(i), editor.value)
  }

  /** The part of an edit before its transaction: every check, and the columns to write. */
  function BeginEdit(
      o: Office, i: nat, editor: Option<StaffId>, email: Option<Option<string>>, phone: Option<Option<string>>, otherChanged: bool)
    : (Office, LeadOutcome)
  {
    if i >= |o.leads| || !MayEdit(o.desk, i, editor) then (o, Rejected(Forbidden))
    else
      var lead := o.leads[i];
      var finalEmail := if email.Some? then email.value else lead.email;
      var finalPhone := if phone.Some? then phone.value else lead.phone;
      if lead.status.ConvertedToClient? then (o, Rejected(Locked))
      else if !HasContact(finalEmail, finalPhone) then (o, Rejected(NoContactLeft))
      else
        var patch := Patch(
          i, editor,
          if email.Some? && finalEmail != lead.email then Some(finalEmail) else None,
          if phone.Some? && finalPhone != lead.phone then Some(finalPhone) else None);
        if patch.email.None? && patch.phone.None? && !otherChanged then (o, NothingToDo)
        else (o.(pending := o.pending + [patch]), Done)
  }

  function Patched(lead: Lead, patch: Patch): Lead {
    var l := if patch.email.Some? then lead.(email := patch.email.value, normalizedEmail := NormEmail(patch.email.value)) else lead;
    if patch.phone.Some? then l.(phone := patch.phone.value, normalizedPhone := NormPhone(patch.phone.value)) else l
  }

  /** The write of a pending edit: a consultant's assignment is checked again, and nothing of the lead. */
  function FinishEdit(o: Office, k: nat): (Office, LeadOutcome) {
    if k >= |o.pending| || o.pending[k].lead >= |o.leads| then (o, NothingToDo)
    else
      var patch := o.pending[k];
      var rest := o.pending[..k] + o.pending[k + 1..];
      if !MayEdit(o.desk, patch.lead, patch.editor) then (o.(pending := rest), Rejected(Forbidden))
      else (o.(leads := o.leads[patch.lead := Patched(o.leads[patch.lead], patch)], pending := rest), Done)
  }

  function Moved(lead: Lead, next: LeadStatus): Lead {
    lead.(status := next, history := lead.history + [StatusChange(Some(lead.status), next)])
  }

  function UpdateStatus(o: Office, i: nat, next: LeadStatus, expected: LeadStatus, hasReason: bool): (Office, LeadOutcome) {
    if i >= |o.leads| then (o, Rejected(Forbidden))
    else
      var lead := o.leads[i];
      if lead.status == next then (o, NothingToDo)
      else if lead.status != expected then (o, Rejected(Conflict))
      else if lead.status.Qualified? && next.ConvertedToClient? then (o, Rejected(ConversionEndpointRequired))
      else if next !in Targets(lead.status) then (o, Rejected(InvalidTransition))
      else if NeedsReason(lead.status, next) && !hasReason then (o, Rejected(MissingReason))
      else (o.(leads := o.leads[i := Moved(lead, next)]), Done)
  }

  /** The stored answer of an earlier conversion, or a conflict; never a write. */
  function ReplayConversion(o: Office, i: nat, client: Option<nat>): (answer: LeadOutcome)
    requires i < |o.leads|
    ensures answer.Replayed? || answer == Rejected(Conflict)
  {
    var lead := o.leads[i];
    var entry := LastConversion(o.conversions, i);
    if lead.clientId.None? || (client.Some? && client != lead.clientId) then Rejected(Conflict)
    else if entry.None? || ParseConversionState(entry.value).None? then Rejected(Conflict)
    else
      var state := ParseConversionState(entry.value).value;
      if state.0 != Text.Decimal(lead.clientId.value) || lead.clientId.value >= |o.clients| then Rejected(Conflict)
      else Replayed(lead.clientId.value, state.1)
  }

  /** Conversion to client `c`, which either exists or was just appended. */
  function ConvertTo(o: Office, i: nat, c: nat, clientCreated: bool): Office
    requires i < |o.leads|
  {
    var lead := o.leads[i];
    o.(leads := o.leads[i := Moved(lead, ConvertedToClient).(clientId := Some(c))],
       conversions := o.conversions + [ConversionEntry(i, ConversionState(c, clientCreated))])
  }

  /** A client made from the lead's own contact data, inheriting the lead's active consultant if it has one. */
  function WithNewClient(o: Office, lead: Lead, consultant: Option<StaffId>): Office {
    var c := |o.clients|;
    var row := ClientRow(lead.email, lead.phone, lead.normalizedEmail, lead.normalizedPhone, o.clock);
    var desk := if consultant.Some? then Assign(o.desk, ClientTarget(c), TravelConsultant, consultant.value) else o.desk;
    o.(clients := o.clients + [row], desk := desk, clock := o.clock + 1)
  }

  function Convert(o: Office, i: nat, client: Option<nat>, consultant: Option<StaffId>): (Office, LeadOutcome) {
    if i >= |o.leads| then (o, Rejected(Forbidden))
    else if consultant.Some? && !AssignedTo(o.desk, LeadTarget(i), consultant.value) then (o, Rejected(Forbidden))
    else if client.Some? && consultant.Some? && !AssignedTo(o.desk, ClientTarget(client.value), consultant.value) then
      (o, Rejected(ClientLinkNotAvailable))
    else
      var lead := o.leads[i];
      var found := MatchingClients(o.clients, lead.normalizedEmail, lead.normalizedPhone, None);
      if lead.status.ConvertedToClient? then (o, ReplayConversion(o, i, client))
      else if !lead.status.Qualified? then (o, Rejected(Conflict))
      else if client.None? then
        if found != [] then (o, Rejected(ClientMatchRequiresLink))
        else
          var inherited := ActiveStaff(o.desk.rows, LeadTarget(i), TravelConsultant);
          (ConvertTo(WithNewClient(o, lead, inherited), i, |o.clients|, true), Converted(|o.clients|, true))
      else if client.value !in found then (o, Rejected(ClientLinkNotAvailable))
      else (ConvertTo(o, i, client.value, false), Converted(client.value, false))
  }

  // ---------------------------------------------------------------- clients

  /** One transaction reads, checks and writes; the row must be the one the caller saw. */
  function UpdateClient(
      o: Office, c: nat, expectedUpdatedAt: nat, email: Option<Option<string>>, phone: Option<Option<string>>, otherChanged: bool)
    : (Office, LeadOutcome)
  {
    if c >= |o.clients| then (o, Rejected(Forbidden))
    else
      var row := o.clients[c];
      var finalEmail := if email.Some? then email.value else row.email;
      var finalPhone := if phone.Some? then phone.value else row.phone;
      if row.updatedAt != expectedUpdatedAt then (o, Rejected(Conflict))
      else if !HasContact(finalEmail, finalPhone) then (o, Rejected(NoContactLeft))
      else if finalEmail == row.email && finalPhone == row.phone && !otherChanged then (o, NothingToDo)
      else
        var row' := ClientRow(
          finalEmail, finalPhone,
          if finalEmail != row.email then NormEmail(finalEmail) else row.normalizedEmail,
          if finalPhone != row.phone then NormPhone(finalPhone) else row.normalizedPhone,
          o.clock);
        (o.(clients := o.clients[c := row'], clock := o.clock + 1), Done)
  }
}
