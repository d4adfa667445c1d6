/**
 * When each transaction of the invitation protocol succeeds, and exactly what it then writes, in every reachable world:
 * stated on columns, requests and the issuing reservation, without the guards and row builders of the model.
 */
module InvitationAnswers {
  import opened Wrappers
  import opened Invitations
  import opened InvitationRuns
  import opened InvitationProofs
  import opened InvitationTheorems
  import Contact

  const WEEK_MS: Instant := 604_800_000

  // ---------------------------------------------------------------- staff

  /** What a staff member must get right for a link to be issued. */
  ghost predicate MayIssue(w: World, request: Request, context: Context)
    requires !request.ConfirmRequest?
  {
    && (request.channel == AutomatedEmail ==> context.deliveryEnabled)
    && context.clientEmail.Some? && context.clientEmail.value != ""
    && request.client in w.db.rows
    && var row := w.db.rows[request.client];
       match request
       case SendRequest(_, _) => row.status == Prepared
       case ResendRequest(_, _, operation, version) =>
         row.status in {Sent, Opened, Revoked} && row.sendOperationId == operation && row.updatedAt == version
       case ConfirmRequest(_) => false
  }

  /** A link is issued exactly when the request may issue one: no index and no used key is ever in the way. */
  lemma ReservationIsIssuedIff(w: World, e: Event)
    requires Reachable(w) && Assumed(w.h, e) && e.Submit? && !e.request.ConfirmRequest?
    ensures Reserve(w.db, e.key, e.request, |w.h.reservations|, e.context).1.Fresh? <==> MayIssue(w, e.request, e.context)
    ensures !MayIssue(w, e.request, e.context) ==>
              Reserve(w.db, e.key, e.request, |w.h.reservations|, e.context).0 == w.db
  {
    hide ProviderOk, TimesOk, OpenedOk, ActivationsOk, AuditOk, Reachable, TokenTaken, OperationTaken, ReservedRow;
    ReachableOk(w);
    NoUniqueViolation(w, e);
    if e.request.client in w.db.rows {
      RowFacts(w, e.request.client);
      UsedKey(w, e);
    }
  }

  /** A row that holds the key was reserved under it, so the request is spent. */
  lemma UsedKey(w: World, e: Event)
    requires RowsOk(w) && ReservationsOk(w) && Assumed(w.h, e) && e.Submit? && !e.request.ConfirmRequest?
    requires e.request.client in w.db.rows
    ensures var row := w.db.rows[e.request.client];
            row.deliveryMethod == Some(AutomatedEmail) && row.sendOperationId == Some(e.key) ==>
              !MayIssue(w, e.request, e.context)
  {
    var c := e.request.client;
    RowFacts(w, c);
    if w.db.rows[c].deliveryMethod == Some(AutomatedEmail) && w.db.rows[c].sendOperationId == Some(e.key) {
      assert ReservationOk(w, w.h.current[c]);
    }
  }

  /** Whatever is refused is refused for a reason that holds. */
  lemma ReservationRefusals(w: World, e: Event)
    requires Reachable(w) && Assumed(w.h, e) && e.Submit? && !e.request.ConfirmRequest?
    ensures var c := e.request.client;
            match Reserve(w.db, e.key, e.request, |w.h.reservations|, e.context).1
            case Refused(DeliveryDisabled) => e.request.channel == AutomatedEmail && !e.context.deliveryEnabled
            case Refused(InvitationNotFound) => c !in w.db.rows
            case AlreadyReserved =>
              c in w.db.rows && w.db.rows[c].deliveryMethod == Some(AutomatedEmail) && w.db.rows[c].sendOperationId == Some(e.key)
            case Refused(InvitationNotSendable) =>
              c in w.db.rows && w.db.rows[c].status !in if e.request.SendRequest? then {Prepared} else {Sent, Opened, Revoked}
            case Refused(SendOperationStale) =>
              && e.request.ResendRequest? && c in w.db.rows
              && (w.db.rows[c].sendOperationId != e.request.expectedOperation || w.db.rows[c].updatedAt != e.request.expectedUpdatedAt)
            case Refused(ClientEmailMissing) => e.context.clientEmail == None || e.context.clientEmail == Some("")
            case Fresh => true
            case _ => false
  {
    hide ProviderOk, TimesOk, OpenedOk, ActivationsOk, AuditOk, Reachable, TokenTaken, OperationTaken, ReservedRow;
    NoUniqueViolation(w, e);
  }

  /** The row an issued link leaves, column by column; all earlier delivery evidence is gone. */
  function IssuedRow(row: Invitation, key: Key, channel: Channel, token: Token, context: Context, clock: nat): Invitation
    requires context.clientEmail.Some?
  {
    Invitation(
      status := Sent,
      tokenHash := Some(Digest(token)),
      expiresAt := Some(context.now + WEEK_MS),
      destinationEmail := Some(Contact.NormalizeEmail(context.clientEmail.value)),
      deliveryMethod := if channel == AutomatedEmail then Some(AutomatedEmail) else None,
      deliveryState := if channel == AutomatedEmail then AutomatedUnconfirmed else NotAttempted,
      sendOperationId := if channel == AutomatedEmail then Some(key) else None,
      providerMessageId := None,
      deliveryConfirmedAt := None,
      deliveryConfirmedBy := None,
      sentAt := Some(context.now),
      openedAt := row.openedAt,
      activatedAt := row.activatedAt,
      revokedAt := None,
      updatedAt := clock)
  }

  function ShownOf(row: Invitation): Snapshot {
    Snapshot(row.status, row.deliveryMethod, row.deliveryState, row.sendOperationId, row.providerMessageId, row.expiresAt)
  }

  /** The audit entry of a staff action on an existing row. */
  function StaffEntry(
      action: Action, c: ClientId, staff: StaffId, row: Invitation, row': Invitation, reason: Option<string>): AuditEntry
  {
    AuditEntry(action, c, Staff(staff), Some(ShownOf(row)), ShownOf(row'), reason)
  }

  /** An issued link writes its one row; a resend and an automated send are audited, a manual first send is not yet. */
  lemma IssuedLinkWrites(db: Db, key: Key, request: Request, token: Token, context: Context)
    requires !request.ConfirmRequest? && Reserve(db, key, request, token, context).1.Fresh?
    ensures request.client in db.rows && context.clientEmail.Some?
    ensures var c := request.client;
            var row' := IssuedRow(db.rows[c], key, request.channel, token, context, db.clock);
            var action := if request.ResendRequest? then Resent else SentAutomated;
            var entry := StaffEntry(action, c, context.staff, db.rows[c], row', None);
            Reserve(db, key, request, token, context).0 ==
            db.(rows := db.rows[c := row'], clock := db.clock + 1,
                audit := db.audit + if request.ResendRequest? || request.channel == AutomatedEmail then [entry] else [])
  {
    hide TokenTaken, OperationTaken, IsStale, Sendable;
  }

  /** Every row with a token shows the address and the times of the reservation that issued that token. */
  lemma TokensGoWhereReserved(w: World, c: ClientId)
    requires Reachable(w) && c in w.db.rows && w.db.rows[c].tokenHash.Some?
    ensures var row, t := w.db.rows[c], w.db.rows[c].tokenHash.value.token;
            && t < |w.h.reservations| && w.h.reservations[t].request.client == c
            && w.h.reservations[t].context.clientEmail.Some?
            && row.destinationEmail == Some(Contact.NormalizeEmail(w.h.reservations[t].context.clientEmail.value))
            && row.sentAt == Some(w.h.reservations[t].context.now)
            && row.expiresAt == Some(w.h.reservations[t].context.now + WEEK_MS)
  {
    hide ProviderOk, TimesOk, OpenedOk, ActivationsOk, AuditOk, Reachable, Evidence;
    ReachableOk(w);
    RowFacts(w, c);
    TokenOwner(w, w.db.rows[c].tokenHash.value.token, c);
  }

  /** A confirmation succeeds exactly on a sent row without delivery method, and attests it in the name of the actor. */
  lemma ConfirmationWrites(w: World, e: Event)
    requires Reachable(w) && Assumed(w.h, e) && e.Submit? && e.request.ConfirmRequest?
    ensures var c := e.request.client;
            var (db', outcome) := Confirm(w.db, e.key, c, e.context);
            if c in w.db.rows && w.db.rows[c].status == Sent && w.db.rows[c].deliveryMethod == None then
              var row' := w.db.rows[c].(
                deliveryMethod := Some(ManualEmail), deliveryState := ManuallyConfirmed, sendOperationId := Some(e.key),
                deliveryConfirmedBy := Some(e.context.staff), deliveryConfirmedAt := Some(e.context.now), updatedAt := w.db.clock);
              var entry := StaffEntry(SentManualConfirmed, c, e.context.staff, w.db.rows[c], row', None);
              && outcome == Applied
              && db' == w.db.(rows := w.db.rows[c := row'], clock := w.db.clock + 1, audit := w.db.audit + [entry])
            else
              && db' == w.db
              && (outcome == NoChange <==> c in w.db.rows && w.db.rows[c].deliveryState == ManuallyConfirmed)
              && (outcome == Refused(InvitationNotFound) <==> c !in w.db.rows)
              && outcome in {NoChange, Refused(InvitationNotFound), Refused(InvitationNotSendable)}
  {
    hide ProviderOk, TimesOk, OpenedOk, ActivationsOk, AuditOk, Reachable, ReservationsOk, OperationTaken;
    ReachableOk(w);
    NoUniqueViolation(w, e);
    if e.request.client in w.db.rows {
      RowFacts(w, e.request.client);
    }
  }

  /** A revocation succeeds exactly on a row neither revoked nor activated, and takes the token with its address away. */
  lemma RevocationWrites(db: Db, c: ClientId, reason: string, context: Context)
    ensures var (db', outcome) := Revoke(db, c, reason, context);
            if c in db.rows && db.rows[c].status !in {Revoked, Activated} then
              var row' := db.rows[c].(
                status := Revoked, revokedAt := Some(context.now), tokenHash := None, expiresAt := None,
                destinationEmail := None, updatedAt := db.clock);
              var entry := StaffEntry(RevokedEntry, c, context.staff, db.rows[c], row', Some(reason));
              && outcome == Applied
              && db' == db.(rows := db.rows[c := row'], clock := db.clock + 1, audit := db.audit + [entry])
            else
              && db' == db
              && outcome == if c !in db.rows then Refused(InvitationNotFound)
                            else if db.rows[c].status == Revoked then NoChange else Refused(AlreadyActivated)
  {
  }

  /** A client gets its one row once. */
  lemma PreparationWrites(db: Db, c: ClientId, clientExists: bool, staff: StaffId)
    ensures var (db', outcome) := Prepare(db, c, clientExists, staff);
            if c !in db.rows && clientExists then
              var row' := Invitation(
                Prepared, None, None, None, None, NotAttempted, None, None, None, None, None, None, None, None, db.clock);
              var entry := AuditEntry(PreparedEntry, c, Staff(staff), None, ShownOf(row'), None);
              && outcome == Applied
              && db' == db.(rows := db.rows[c := row'], clock := db.clock + 1, audit := db.audit + [entry])
            else
              && db' == db
              && outcome == if c !in db.rows then Refused(ClientNotFound)
                            else if db.rows[c].status == Prepared then NoChange else Refused(InvitationAlreadyExists)
  {
  }

  // ---------------------------------------------------------------- provider evidence

  /** The state each kind of event reports. */
  predicate Reports(kind: Kind, state: Delivery) {
    || (kind in {EmailSent, DeliveryDelayed} && state == AutomatedAccepted)
    || (kind == EmailDelivered && state == ProviderDelivered)
    || (kind == EmailBounced && state == ProviderBounced)
    || (kind == EmailComplained && state == ProviderComplained)
    || (kind == EmailFailed && state == ProviderFailed)
    || (kind == EmailSuppressed && state == ProviderSuppressed)
  }

  /** The event finds the row by its message, or by its tag while the row has none, and still has something to say to it. */
  predicate Reaches(row: Invitation, e: Event)
    requires e.WebhookEvent? && e.message.Some?
  {
    && (row.providerMessageId == e.message || (row.providerMessageId == None && e.tag != None))
    && e.kind != OtherKind
    && (e.kind in {EmailSent, DeliveryDelayed} ==> row.deliveryState == AutomatedUnconfirmed)
  }

  /**
   * A webhook writes the reported state and its message id to the row that holds its operation exactly when it
   * reaches that row, and nothing else anywhere.
   */
  lemma WebhookWrites(w: World, e: Event, c: ClientId)
    requires Reachable(w) && Assumed(w.h, e) && e.WebhookEvent? && e.message.Some? && c in w.db.rows
    ensures c in Step(w, e).db.rows
    ensures var row, row' := w.db.rows[c], Step(w, e).db.rows[c];
            if row.sendOperationId == Some(e.message.value.operation) && Reaches(row, e) then
              && Reports(e.kind, row'.deliveryState)
              && row' == row.(deliveryState := row'.deliveryState, providerMessageId := e.message, updatedAt := w.db.clock)
            else row' == row
  {
    hide RowsOk, ReservationsOk, ProviderOk, TimesOk, OpenedOk, ActivationsOk, AuditOk, Reachable, Evidence, Traced;
    hide Webhook, Correlate, MessageTaken, Unique, SubmitStep, CallStep, OutcomeStep, ContinueStep, ActivateStep, Prepare, Revoke;
    ReachableOk(w);
    var m := e.message.value;
    NoIdentifierIsShared(w);
    WebhookTouches(w.db, e.message, e.tag, e.kind, c);
    CorrelationIsByOperation(w, m, e.tag);
    if HasOperation(w.db, c, m.operation) {
      KeyFacts(w, m.operation);
      EvidenceTarget(w, c, m, w.h.issued[m.operation]);
      if Reaches(w.db.rows[c], e) {
        HolderCorrelates(w.db, m, e.tag, c);
        ReachedRow(w.db, m, e.tag, e.kind, c);
      } else {
        UnreachedRow(w.db, m, e.tag, e.kind, c);
      }
    }
  }

  lemma ReachedRow(db: Db, m: MessageId, tag: Option<Key>, kind: Kind, c: ClientId)
    requires Correlate(db, m, tag) == Target(c) && !MessageTaken(db, c, m) && kind != OtherKind
    requires kind in {EmailSent, DeliveryDelayed} ==> c in db.rows && db.rows[c].deliveryState == AutomatedUnconfirmed
    ensures c in db.rows && c in Webhook(db, Some(m), tag, kind).rows
    ensures var row, row' := db.rows[c], Webhook(db, Some(m), tag, kind).rows[c];
            && Reports(kind, row'.deliveryState)
            && row' == row.(deliveryState := row'.deliveryState, providerMessageId := Some(m), updatedAt := db.clock)
  {
    hide Correlate, MessageTaken;
  }

  /** An event of another message, without a way to the row, or too late for it, leaves it. */
  lemma UnreachedRow(db: Db, m: MessageId, tag: Option<Key>, kind: Kind, c: ClientId)
    requires HasOperation(db, c, m.operation) && (tag.Some? ==> tag.value == m.operation)
    requires Unique(db)
    requires !Reaches(db.rows[c], WebhookEvent(Some(m), tag, kind))
    ensures c in Webhook(db, Some(m), tag, kind).rows && Webhook(db, Some(m), tag, kind).rows[c] == db.rows[c]
  {
    hide Unique, Correlate, Webhook;
    WebhookTouches(db, Some(m), tag, kind, c);
    if Webhook(db, Some(m), tag, kind).rows[c] != db.rows[c] {
      WebhookWrite(db, Some(m), tag, kind);
      CorrelatedRow(db, m, tag, c);
    }
  }

  lemma CorrelatedRow(db: Db, m: MessageId, tag: Option<Key>, c: ClientId)
    requires Correlate(db, m, tag) == Target(c) && HasOperation(db, c, m.operation) && Unique(db)
    requires tag.Some? ==> tag.value == m.operation
    ensures db.rows[c].providerMessageId == Some(m) || (db.rows[c].providerMessageId == None && tag != None)
  {
  }

  /**
   * The stored answer of a call settles the row of its reservation exactly while that row holds the operation
   * unconfirmed and the answer is not ambiguous: accepted with its message, or failed without one.
   */
  lemma OutcomeWrites(w: World, e: Event, c: ClientId)
    requires Reachable(w) && e.StoreOutcome? && c in w.db.rows
    ensures c in Step(w, e).db.rows
    ensures var row, row' := w.db.rows[c], Step(w, e).db.rows[c];
            if e.token in w.h.pending && e.token < |w.h.reservations|
               && row.sendOperationId == Some(w.h.reservations[e.token].key) && row.deliveryState == AutomatedUnconfirmed
            then
              match w.h.pending[e.token]
              case Accepted(m) => row' == row.(deliveryState := AutomatedAccepted, providerMessageId := Some(m), updatedAt := w.db.clock)
              case Rejected => row' == row.(deliveryState := ProviderFailed, providerMessageId := None, updatedAt := w.db.clock)
              case Ambiguous => row' == row
            else row' == row
  {
    hide RowsOk, ReservationsOk, ProviderOk, TimesOk, OpenedOk, ActivationsOk, AuditOk, Reachable, Evidence, Traced;
    hide RecordOutcome, MessageTaken, SubmitStep, CallStep, WebhookStep, ContinueStep, ActivateStep, Prepare, Revoke;
    ReachableOk(w);
    if e.token in w.h.pending {
      TokenFacts(w, e.token);
      var r, answer := w.h.reservations[e.token], w.h.pending[e.token];
      OutcomeTouches(w.db, r.request.client, r.key, answer, c);
      if w.db.rows[c].sendOperationId == Some(r.key) && w.db.rows[c].deliveryState == AutomatedUnconfirmed {
        OperationOwner(w, c, e.token);
        if answer.Accepted? {
          EvidenceTarget(w, c, answer.message, e.token);
        }
        SettledRow(w.db, c, r.key, answer);
      }
    }
  }

  /** The row that holds an operation is that of the reservation's client. */
  lemma OperationOwner(w: World, c: ClientId, t: Token)
    requires RowsOk(w) && ReservationsOk(w) && t < |w.h.reservations| && HasOperation(w.db, c, w.h.reservations[t].key)
    ensures w.h.reservations[t].request.client == c
  {
    hide Evidence;
    assert ReservationOk(w, t);
    RowFacts(w, c);
  }

  lemma SettledRow(db: Db, c: ClientId, key: Key, answer: Answer)
    requires HasOperation(db, c, key) && db.rows[c].deliveryState == AutomatedUnconfirmed
    requires answer.Accepted? ==> !MessageTaken(db, c, answer.message)
    ensures c in RecordOutcome(db, c, key, answer).rows
    ensures var row, row' := db.rows[c], RecordOutcome(db, c, key, answer).rows[c];
            match answer
            case Accepted(m) => row' == row.(deliveryState := AutomatedAccepted, providerMessageId := Some(m), updatedAt := db.clock)
            case Rejected => row' == row.(deliveryState := ProviderFailed, providerMessageId := None, updatedAt := db.clock)
            case Ambiguous => row' == row
  {
    hide MessageTaken;
  }

  // ---------------------------------------------------------------- the invitee

  /** The token is the last one issued to its client, within a week of its issue, on a row in one of the given states. */
  predicate Works(w: World, t: Token, now: Instant, states: set<Status>) {
    && t < |w.h.reservations|
    && var r := w.h.reservations[t];
       && r.request.client in w.h.current && w.h.current[r.request.client] == t
       && r.request.client in w.db.rows && w.db.rows[r.request.client].status in states
       && now <= r.context.now + WEEK_MS
  }

  /** A token finds exactly the row it was issued for, while that row still carries it. */
  lemma TokenFindsItsRow(w: World, t: Token, now: Instant)
    requires Reachable(w)
    ensures var found := FindByToken(w.db, Digest(t));
            && (found.Some? && Eligible(w.db.rows[found.value], now) <==> Works(w, t, now, {Sent, Opened}))
            && (Works(w, t, now, {Sent, Opened}) ==> found == Some(w.h.reservations[t].request.client))
  {
    hide ProviderOk, TimesOk, OpenedOk, ActivationsOk, AuditOk, Reachable;
    ReachableOk(w);
    var found := FindByToken(w.db, Digest(t));
    if found.Some? {
      RowFacts(w, found.value);
      if w.db.rows[found.value].tokenHash == Some(Digest(t)) {
        TokenOwner(w, t, found.value);
      }
    }
    if Works(w, t, now, {Sent, Opened}) {
      var c := w.h.reservations[t].request.client;
      RowFacts(w, c);
      assert HasToken(w.db, c, Digest(t));
      NoIdentifierIsShared(w);
    }
  }

  /** Continuing opens exactly a working sent token's row; on an opened one it changes nothing. */
  lemma ContinueWrites(w: World, t: Token, now: Instant)
    requires Reachable(w)
    ensures var (db', outcome) := Continue(w.db, t, now);
            && (outcome == Applied <==> Works(w, t, now, {Sent}))
            && (outcome == NoChange <==> Works(w, t, now, {Opened}))
            && (outcome != Applied ==> db' == w.db && outcome in {NoChange, Refused(NotEligible)})
            && (outcome == Applied ==>
                  var c := w.h.reservations[t].request.client;
                  var row := w.db.rows[c];
                  var row' := row.(status := Opened, openedAt := Some(now), updatedAt := w.db.clock);
                  var entry := AuditEntry(OpenedEntry, c, Anonymous, Some(ShownOf(row)), ShownOf(row'), None);
                  db' == w.db.(rows := w.db.rows[c := row'], clock := w.db.clock + 1, audit := w.db.audit + [entry]))
  {
    hide Reachable, Eligible;
    TokenFindsItsRow(w, t, now);
    EligibleStatus(w.db, FindByToken(w.db, Digest(t)), now);
  }

  lemma EligibleStatus(db: Db, found: Option<ClientId>, now: Instant)
    requires found.Some? ==> found.value in db.rows
    ensures found.Some? && Eligible(db.rows[found.value], now) ==> db.rows[found.value].status in {Sent, Opened}
  {
  }

  /** The address of a reservation is vouched for: its automated send was accepted or delivered, or its link was attested. */
  predicate AddressIsVouched(w: World, t: Token)
    requires t < |w.h.reservations| && w.h.reservations[t].request.client in w.db.rows
  {
    var r := w.h.reservations[t];
    if !r.request.ConfirmRequest? && r.request.channel == AutomatedEmail
    then w.db.rows[r.request.client].deliveryState in {AutomatedAccepted, ProviderDelivered}
    else t in w.h.attested
  }

  /** On the row that carries a token, the model's own verdict is the evidence about that token. */
  lemma VerdictIsEvidence(w: World, t: Token, now: Instant)
    requires Reachable(w) && Works(w, t, now, {Sent, Opened})
    ensures EmailVerified(w.db.rows[w.h.reservations[t].request.client]) <==> AddressIsVouched(w, t)
  {
    hide ReservationsOk, ProviderOk, TimesOk, OpenedOk, ActivationsOk, AuditOk, Reachable;
    ReachableOk(w);
    RowFacts(w, w.h.reservations[t].request.client);
  }

  /**
   * Activation succeeds exactly with a working token whose address is not empty and belongs to no user. It creates the
   * user under that address, verified exactly when the address is vouched for, the account with the given password hash
   * and the client's profile, and activates the row.
   */
  lemma ActivationCreates(w: World, t: Token, now: Instant, name: string, passwordHash: string)
    requires Reachable(w)
    ensures var (db', outcome) := Activate(w.db, t, now, name, passwordHash);
            if Works(w, t, now, {Sent, Opened}) && w.h.reservations[t].context.clientEmail.Some?
               && var address := Contact.NormalizeEmail(w.h.reservations[t].context.clientEmail.value);
                  address != "" && forall u | 0 <= u < |w.db.users| :: w.db.users[u].email != address
            then
              var c, id := w.h.reservations[t].request.client, |w.db.users|;
              var address := Contact.NormalizeEmail(w.h.reservations[t].context.clientEmail.value);
              var row := w.db.rows[c];
              var row' := row.(status := Activated, activatedAt := Some(now), updatedAt := w.db.clock);
              var entry := AuditEntry(ActivatedEntry, c, NewUser(id), Some(ShownOf(row)), ShownOf(row'), None);
              && outcome == Applied
              && db' == Db(w.db.rows[c := row'],
                           w.db.users + [User(name, address, AddressIsVouched(w, t))],
                           w.db.accounts + [Account(id, passwordHash)],
                           w.db.profiles + [Profile(id, c)],
                           w.db.audit + [entry],
                           w.db.clock + 1)
            else outcome == Refused(NotEligible) && db' == w.db
  {
    hide Reachable, Eligible, EmailVerified, AddressIsVouched, EmailInUse, HasProfile;
    TokenFindsItsRow(w, t, now);
    if Works(w, t, now, {Sent, Opened}) {
      var c := w.h.reservations[t].request.client;
      VerdictIsEvidence(w, t, now);
      CarriedToken(w, t, now);
      TokensGoWhereReserved(w, c);
      OneAccountPerClient(w, c);
      InUse(w.db.users, w.db.rows[c].destinationEmail.value);
    }
  }

  lemma CarriedToken(w: World, t: Token, now: Instant)
    requires Reachable(w) && Works(w, t, now, {Sent, Opened})
    ensures w.db.rows[w.h.reservations[t].request.client].tokenHash == Some(Digest(t))
  {
    hide ReservationsOk, ProviderOk, TimesOk, OpenedOk, ActivationsOk, AuditOk, Reachable;
    ReachableOk(w);
    RowFacts(w, w.h.reservations[t].request.client);
  }

  lemma InUse(users: seq<User>, email: string)
    ensures EmailInUse(users, email) <==> !(forall u | 0 <= u < |users| :: users[u].email != email)
  {
  }
}
