/** Leads, clients and their conversions as the transactions update them in place. */
module LeadOffice {
  import opened Wrappers
  import opened Assignments
  import opened Leads
  import LeadTheorems

  class LeadOffice {
    var leads: seq<Lead>
    var clients: seq<ClientRow>
    var bookings: nat
    var desk: Desk
    var conversions: seq<ConversionEntry>
    var pending: seq<Patch>
    var clock: nat

    ghost function State(): Office
      reads this
    {
      Office(leads, clients, bookings, desk, conversions, pending, clock)
    }

    /** Normal forms, status paths, conversion records and assignment audit agree with the rows. */
    ghost predicate Valid()
      reads this
    {
      LeadTheorems.Inv(State())
    }

    constructor ()
      ensures Valid()
      ensures State() == Office([], [], 0, Desk([], []), [], [], 0)
    {
      leads, clients, bookings, desk, conversions, pending, clock := [], [], 0, Desk([], []), [], [], 0;
      LeadTheorems.EmptyOk();
    }

    method CreateLead(email: Option<string>, phone: Option<string>, consultant: Option<StaffId>) returns (outcome: LeadOutcome)
      requires Valid()
      modifies this
      ensures (State(), outcome) == Leads.CreateLead(old(State()), email, phone, consultant)
      ensures Valid()
    {
      hide LeadTheorems.Inv;
      LeadTheorems.StepKeepsInv(State(), LeadTheorems.CreateLeadEvent(email, phone, consultant));
      var id := |leads|;
      leads := leads + [Lead(New, email, phone, NormEmail(email), NormPhone(phone), None, [StatusChange(None, New)])];
      if consultant.Some? {
        desk := Assign(desk, LeadTarget(id), TravelConsultant, consultant.value);
      }
      return Done;
    }

    method BeginEdit(
        i: nat, editor: Option<StaffId>, email: Option<Option<string>>, phone: Option<Option<string>>, otherChanged: bool)
      returns (outcome: LeadOutcome)
      requires Valid()
      modifies this`pending
      ensures (State(), outcome) == Leads.BeginEdit(old(State()), i, editor, email, phone, otherChanged)
      ensures Valid()
    {
      hide LeadTheorems.Inv;
      LeadTheorems.StepKeepsInv(State(), LeadTheorems.BeginEditEvent(i, editor, email, phone, otherChanged));
      if i >= |leads| || !MayEdit(desk, i, editor) {
        return Rejected(Forbidden);
      }
      var existing := leads[i];
      if existing.status.ConvertedToClient? {
        return Rejected(Locked);
      }
      var finalEmail := if email.Some? then email.value else existing.email;
      var finalPhone := if phone.Some? then phone.value else existing.phone;
      if !HasContact(finalEmail, finalPhone) {
        return Rejected(NoContactLeft);
      }
      var patch := Patch(i, editor, None, None);
      if email.Some? && finalEmail != existing.email {
        patch := patch.(email := Some(finalEmail));
      }
      if phone.Some? && finalPhone != existing.phone {
        patch := patch.(phone := Some(finalPhone));
      }
      if patch == Patch(i, editor, None, None) && !otherChanged {
        return NothingToDo;
      }
      pending := pending + [patch];
      return Done;
    }

    method FinishEdit(k: nat) returns (outcome: LeadOutcome)
      requires Valid()
      modifies this`leads, this`pending
      ensures (State(), outcome) == Leads.FinishEdit(old(State()), k)
      ensures Valid()
    {
      hide LeadTheorems.Inv;
      LeadTheorems.StepKeepsInv(State(), LeadTheorems.FinishEditEvent(k));
      if k >= |pending| || pending[k].lead >= |leads| {
        return NothingToDo;
      }
      var patch := pending[k];
      pending := pending[..k] + pending[k + 1..];
      if !MayEdit(desk, patch.lead, patch.editor) {
        return Rejected(Forbidden);
      }
      var row := leads[patch.lead];
      if patch.email.Some? {
        row := row.(email := patch.email.value, normalizedEmail := NormEmail(patch.email.value));
      }
      if patch.phone.Some? {
        row := row.(phone := patch.phone.value, normalizedPhone := NormPhone(patch.phone.value));
      }
      leads := leads[patch.lead := row];
      return Done;
    }

    method UpdateStatus(i: nat, next: LeadStatus, expected: LeadStatus, hasReason: bool) returns (outcome: LeadOutcome)
      requires Valid()
      modifies this`leads
      ensures (State(), outcome) == Leads.UpdateStatus(old(State()), i, next, expected, hasReason)
      ensures Valid()
    {
      hide LeadTheorems.Inv;
      LeadTheorems.StepKeepsInv(State(), LeadTheorems.StatusEvent(i, next, expected, hasReason));
      if i >= |leads| {
        return Rejected(Forbidden);
      }
      var current := leads[i].status;
      if current == next {
        return NothingToDo;
      }
      if current != expected {
        return Rejected(Conflict);
      }
      if current.Qualified? && next.ConvertedToClient? {
        return Rejected(ConversionEndpointRequired);
      }
      if next !in Targets(current) {
        return Rejected(InvalidTransition);
      }
      if NeedsReason(current, next) && !hasReason {
        return Rejected(MissingReason);
      }
      leads := leads[i := leads[i].(status := next, history := leads[i].history + [StatusChange(Some(current), next)])];
      return Done;
    }

    /** The dedicated conversion: link a matching client, or create one when nothing matches. */
    method Convert(i: nat, client: Option<nat>, consultant: Option<StaffId>) returns (outcome: LeadOutcome)
      requires Valid()
      modifies this
      ensures (State(), outcome) == Leads.Convert(old(State()), i, client, consultant)
      ensures Valid()
    {
      hide LeadTheorems.Inv, ConversionState, ReplayConversion, MatchingClients, ActiveStaff, Assign;
      assert LeadTheorems.Inv(Leads.Convert(State(), i, client, consultant).0) by {
        LeadTheorems.StepKeepsInv(State(), LeadTheorems.ConvertEvent(i, client, consultant));
      }
      hide LeadTheorems.Perform;
      if i >= |leads| {
        return Rejected(Forbidden);
      }
      var active := ActiveStaff(desk.rows, LeadTarget(i), TravelConsultant);
      if consultant.Some? && active != consultant {
        return Rejected(Forbidden);
      }
      if client.Some? && consultant.Some? && !AssignedTo(desk, ClientTarget(client.value), consultant.value) {
        return Rejected(ClientLinkNotAvailable);
      }
      var found := leads[i];
      if found.status.ConvertedToClient? {
        return ReplayConversion(Office(leads, clients, bookings, desk, conversions, pending, clock), i, client);
      }
      if !found.status.Qualified? {
        return Rejected(Conflict);
      }
      var matches := MatchingClients(clients, found.normalizedEmail, found.normalizedPhone, None);
      var c: nat;
      if client.None? {
        if matches != [] {
          return Rejected(ClientMatchRequiresLink);
        }
        c := |clients|;
        clients := clients + [ClientRow(found.email, found.phone, found.normalizedEmail, found.normalizedPhone, clock)];
        clock := clock + 1;
        if active.Some? {
          desk := Assign(desk, ClientTarget(c), TravelConsultant, active.value);
        }
      } else {
        if client.value !in matches {
          return Rejected(ClientLinkNotAvailable);
        }
        c := client.value;
      }
      leads := leads[i := found.(
        status := ConvertedToClient,
        clientId := Some(c),
        history := found.history + [StatusChange(Some(found.status), ConvertedToClient)])];
      conversions := conversions + [ConversionEntry(i, ConversionState(c, client.None?))];
      return Converted(c, client.None?);
    }

    method UpdateClient(
        c: nat, expectedUpdatedAt: nat, email: Option<Option<string>>, phone: Option<Option<string>>, otherChanged: bool)
      returns (outcome: LeadOutcome)
      requires Valid()
      modifies this`clients, this`clock
      ensures (State(), outcome) == Leads.UpdateClient(old(State()), c, expectedUpdatedAt, email, phone, otherChanged)
      ensures Valid()
    {
      hide LeadTheorems.Inv;
      LeadTheorems.StepKeepsInv(State(), LeadTheorems.UpdateClientEvent(c, expectedUpdatedAt, email, phone, otherChanged));
      if c >= |clients| {
        return Rejected(Forbidden);
      }
      var row := clients[c];
      if row.updatedAt != expectedUpdatedAt {
        return Rejected(Conflict);
      }
      var finalEmail := if email.Some? then email.value else row.email;
      var finalPhone := if phone.Some? then phone.value else row.phone;
      if !HasContact(finalEmail, finalPhone) {
        return Rejected(NoContactLeft);
      }
      var changed := otherChanged;
      var data := row;
      if email.Some? && finalEmail != row.email {
        data := data.(email := finalEmail, normalizedEmail := NormEmail(finalEmail));
        changed := true;
      }
      if phone.Some? && finalPhone != row.phone {
        data := data.(phone := finalPhone, normalizedPhone := NormPhone(finalPhone));
        changed := true;
      }
      if !changed {
        return NothingToDo;
      }
      clients := clients[c := data.(updatedAt := clock)];
      clock := clock + 1;
      return Done;
    }
  }
}
