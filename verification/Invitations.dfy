/**
 * Portal invitations: one row per client, changed by staff actions, provider outcomes, webhooks and
 * the invitee. Each specification function below is one serializable transaction or one conditional
 * update; class `Portal` performs the same writes in place.
 */
module Invitations {
  import opened Wrappers
  import Contact

  type ClientId = nat
  type StaffId = nat
  type Key = nat     // a client-supplied idempotency UUID
  type Token = nat   // a raw 256-bit token
  type Instant = int // milliseconds since the epoch

  const SEVEN_DAYS: Instant := 7 * 24 * 60 * 60 * 1000

  /** SHA-256 of the raw token, taken to be injective. */
  datatype Digest = Digest(token: Token)

  /** The provider issues its message ids; each belongs to the one send operation it was issued for. */
  datatype MessageId = MessageId(operation: Key, serial: nat)

  datatype Channel = AutomatedEmail | ManualEmail

  datatype Status = Prepared | Sent | Opened | Expired | Revoked | Activated

  datatype Delivery =
    | NotAttempted
    | AutomatedUnconfirmed
    | AutomatedAccepted
    | ProviderDelivered
    | ProviderFailed
    | ProviderBounced
    | ProviderComplained
    | ProviderSuppressed
    | ManuallyConfirmed

  datatype Invitation = Invitation(
    status: Status,
    tokenHash: Option<Digest>,
    expiresAt: Option<Instant>,
    destinationEmail: Option<string>,
    deliveryMethod: Option<Channel>,
    deliveryState: Delivery,
    sendOperationId: Option<Key>,
    providerMessageId: Option<MessageId>,
    deliveryConfirmedAt: Option<Instant>,
    deliveryConfirmedBy: Option<StaffId>,
    sentAt: Option<Instant>,
    openedAt: Option<Instant>,
    activatedAt: Option<Instant>,
    revokedAt: Option<Instant>,
    updatedAt: nat
  )

  datatype Action = PreparedEntry | SentAutomated | SentManualConfirmed | Resent | RevokedEntry | OpenedEntry | ActivatedEntry

  datatype Actor = Staff(staff: StaffId) | Anonymous | NewUser(user: nat)

  /** What an audit entry may keep of a row: no token, no digest, no address. */
  datatype Snapshot = Snapshot(
    status: Status,
    deliveryMethod: Option<Channel>,
    deliveryState: Delivery,
    sendOperationId: Option<Key>,
    providerMessageId: Option<MessageId>,
    expiresAt: Option<Instant>
  )

  datatype AuditEntry = AuditEntry(
    action: Action, client: ClientId, actor: Actor, before: Option<Snapshot>, after: Snapshot, reason: Option<string>)

  datatype User = User(name: string, email: string, emailVerified: bool)

  datatype Account = Account(user: nat, passwordHash: string)

  datatype Profile = Profile(user: nat, client: ClientId)

  /** The tables; a user's id is its position. `clock` stamps `updatedAt` and grows with every row write. */
  datatype Db = Db(
    rows: map<ClientId, Invitation>,
    users: seq<User>,
    accounts: seq<Account>,
    profiles: seq<Profile>,
    audit: seq<AuditEntry>,
    clock: nat
  )

  datatype Error =
    | DeliveryDisabled
    | InvitationNotFound
    | InvitationNotSendable
    | SendOperationStale
    | ClientEmailMissing
    | InvitationAlreadyExists
    | ClientNotFound
    | AlreadyActivated
    | UniqueViolation
    | NotEligible

  datatype Outcome = Fresh | AlreadyReserved | NoChange | Applied | Refused(error: Error)

  /** One deliberate staff action, as the idempotency key identifies it. */
  datatype Request =
    | SendRequest(client: ClientId, channel: Channel)
    | ResendRequest(client: ClientId, channel: Channel, expectedOperation: Option<Key>, expectedUpdatedAt: nat)
    | ConfirmRequest(client: ClientId)

  /** What the transaction reads from elsewhere: the acting staff member, the time, the client's address, the switch. */
  datatype Context = Context(staff: StaffId, now: Instant, clientEmail: Option<string>, deliveryEnabled: bool)

  // ---------------------------------------------------------------- row lookups and unique indexes

  ghost predicate HasToken(db: Db, c: ClientId, d: Digest) {
    c in db.rows && db.rows[c].tokenHash == Some(d)
  }

  ghost predicate HasOperation(db: Db, c: ClientId, k: Key) {
    c in db.rows && db.rows[c].sendOperationId == Some(k)
  }

  ghost predicate HasMessage(db: Db, c: ClientId, m: MessageId) {
    c in db.rows && db.rows[c].providerMessageId == Some(m)
  }

  /** The unique indexes on token digest, send operation and provider message. */
  ghost predicate Unique(db: Db) {
    && (forall c, c', d :: HasToken(db, c, d) && HasToken(db, c', d) ==> c == c')
    && (forall c, c', k :: HasOperation(db, c, k) && HasOperation(db, c', k) ==> c == c')
    && (forall c, c', m :: HasMessage(db, c, m) && HasMessage(db, c', m) ==> c == c')
  }

  ghost predicate TokenTaken(db: Db, c: ClientId, d: Digest) {
    exists c' :: c' != c && HasToken(db, c', d)
  }

  ghost predicate OperationTaken(db: Db, c: ClientId, k: Key) {
    exists c' :: c' != c && HasOperation(db, c', k)
  }

  ghost predicate MessageTaken(db: Db, c: ClientId, m: MessageId) {
    exists c' :: c' != c && HasMessage(db, c', m)
  }

  ghost function FindByToken(db: Db, d: Digest): (found: Option<ClientId>)
    ensures found.Some? ==> HasToken(db, found.value, d)
    ensures found.None? ==> forall c :: !HasToken(db, c, d)
  {
    if c :| HasToken(db, c, d) then Some(c) else None
  }

  ghost function FindByOperation(db: Db, k: Key): (found: Option<ClientId>)
    ensures found.Some? ==> HasOperation(db, found.value, k)
    ensures found.None? ==> forall c :: !HasOperation(db, c, k)
  {
    if c :| HasOperation(db, c, k) then Some(c) else None
  }

  ghost function FindByMessage(db: Db, m: MessageId): (found: Option<ClientId>)
    ensures found.Some? ==> HasMessage(db, found.value, m)
    ensures found.None? ==> forall c :: !HasMessage(db, c, m)
  {
    if c :| HasMessage(db, c, m) then Some(c) else None
  }

  // ---------------------------------------------------------------- row writes

  function Sanitize(row: Invitation): Snapshot {
    Snapshot(row.status, row.deliveryMethod, row.deliveryState, row.sendOperationId, row.providerMessageId, row.expiresAt)
  }

  function Write(db: Db, c: ClientId, row: Invitation): Db {
    db.(rows := db.rows[c := row.(updatedAt := db.clock)], clock := db.clock + 1)
  }

  /** Overwrites an existing row and appends the audit entry that quotes it before and after. */
  function WriteAudited(db: Db, c: ClientId, row: Invitation, action: Action, actor: Actor, reason: Option<string>): Db
    requires c in db.rows
  {
    var entry := AuditEntry(action, c, actor, Some(Sanitize(db.rows[c])), Sanitize(row), reason);
    Write(db, c, row).(audit := db.audit + [entry])
  }

  const NewInvitation := Invitation(
    Prepared, None, None, None, None, NotAttempted, None, None, None, None, None, None, None, None, 0)

  /** `sendReservationData`: rotate the token and reset every piece of delivery evidence. */
  function ReservedRow(row: Invitation, key: Key, channel: Channel, token: Token, now: Instant, email: string): Invitation {
    row.(
      status := Sent,
      tokenHash := Some(Digest(token)),
      expiresAt := Some(now + SEVEN_DAYS),
      destinationEmail := Some(Contact.NormalizeEmail(email)),
      sentAt := Some(now),
      providerMessageId := None,
      deliveryConfirmedAt := None,
      deliveryConfirmedBy := None,
      revokedAt := None,
      deliveryMethod := if channel.AutomatedEmail? then Some(AutomatedEmail) else None,
      deliveryState := if channel.AutomatedEmail? then AutomatedUnconfirmed else NotAttempted,
      sendOperationId := if channel.AutomatedEmail? then Some(key) else None)
  }

  function Confirmed(row: Invitation, key: Key, context: Context): Invitation {
    row.(
      deliveryMethod := Some(ManualEmail),
      deliveryState := ManuallyConfirmed,
      sendOperationId := Some(key),
      deliveryConfirmedBy := Some(context.staff),
      deliveryConfirmedAt := Some(context.now))
  }

  function RevokedRow(row: Invitation, now: Instant): Invitation {
    row.(status := Revoked, revokedAt := Some(now), tokenHash := None, expiresAt := None, destinationEmail := None)
  }

  // ---------------------------------------------------------------- staff transactions

  function Prepare(db: Db, c: ClientId, clientExists: bool, staff: StaffId): (Db, Outcome) {
    if c in db.rows then
      (db, if db.rows[c].status.Prepared? then NoChange else Refused(InvitationAlreadyExists))
    else if !clientExists then (db, Refused(ClientNotFound))
    else
      var entry := AuditEntry(PreparedEntry, c, Staff(staff), None, Sanitize(NewInvitation), None);
      (Write(db, c, NewInvitation).(audit := db.audit + [entry]), Applied)
  }

  predicate Sendable(request: Request, status: Status)
    requires !request.ConfirmRequest?
  {
    if request.SendRequest? then status.Prepared?
    else status.Sent? || status.Opened? || status.Expired? || status.Revoked?
  }

  predicate IsStale(request: Request, row: Invitation) {
    && request.ResendRequest?
    && (row.sendOperationId != request.expectedOperation || row.updatedAt != request.expectedUpdatedAt)
  }

  /** The reservation shared by the first send and every resend: guards in order, then one write. */
  ghost function Reserve(db: Db, key: Key, request: Request, token: Token, context: Context): (Db, Outcome)
    requires !request.ConfirmRequest?
  {
    var c := request.client;
    if request.channel.AutomatedEmail? && !context.deliveryEnabled then (db, Refused(DeliveryDisabled))
    else if c !in db.rows then (db, Refused(InvitationNotFound))
    else
      var row := db.rows[c];
      if row.deliveryMethod == Some(AutomatedEmail) && row.sendOperationId == Some(key) then (db, AlreadyReserved)
      else if !Sendable(request, row.status) then (db, Refused(InvitationNotSendable))
      else if IsStale(request, row) then (db, Refused(SendOperationStale))
      else if context.clientEmail.None? || context.clientEmail.value == "" then (db, Refused(ClientEmailMissing))
      else if TokenTaken(db, c, Digest(token)) || (request.channel.AutomatedEmail? && OperationTaken(db, c, key)) then
        (db, Refused(UniqueViolation))
      else
        var updated := ReservedRow(row, key, request.channel, token, context.now, context.clientEmail.value);
        if request.ResendRequest? then (WriteAudited(db, c, updated, Resent, Staff(context.staff), None), Fresh)
        else if request.channel.AutomatedEmail? then
          (WriteAudited(db, c, updated, SentAutomated, Staff(context.staff), None), Fresh)
        else (Write(db, c, updated), Fresh)
  }

  ghost function Confirm(db: Db, key: Key, c: ClientId, context: Context): (Db, Outcome) {
    if c !in db.rows then (db, Refused(InvitationNotFound))
    else
      var row := db.rows[c];
      if row.deliveryState.ManuallyConfirmed? then (db, NoChange)
      else if !row.status.Sent? || row.deliveryMethod.Some? then (db, Refused(InvitationNotSendable))
      else if OperationTaken(db, c, key) then (db, Refused(UniqueViolation))
      else (WriteAudited(db, c, Confirmed(row, key, context), SentManualConfirmed, Staff(context.staff), None), Applied)
  }

  function Revoke(db: Db, c: ClientId, reason: string, context: Context): (Db, Outcome) {
    if c !in db.rows then (db, Refused(InvitationNotFound))
    else if db.rows[c].status.Revoked? then (db, NoChange)
    else if db.rows[c].status.Activated? then (db, Refused(AlreadyActivated))
    else
      (WriteAudited(db, c, RevokedRow(db.rows[c], context.now), RevokedEntry, Staff(context.staff), Some(reason)), Applied)
  }

  // ---------------------------------------------------------------- provider evidence

  /** The classified result of the one provider call made between two transactions. */
  datatype Answer = Accepted(message: MessageId) | Rejected | Ambiguous

  /** `recordAutomatedSendOutcome`, conditional on the operation and on still being unconfirmed. */
  ghost function RecordOutcome(db: Db, c: ClientId, key: Key, answer: Answer): Db {
    if answer.Ambiguous? || c !in db.rows then db
    else
      var row := db.rows[c];
      if row.sendOperationId != Some(key) || !row.deliveryState.AutomatedUnconfirmed? then db
      else if answer.Rejected? then Write(db, c, row.(deliveryState := ProviderFailed, providerMessageId := None))
      else if MessageTaken(db, c, answer.message) then db
      else Write(db, c, row.(deliveryState := AutomatedAccepted, providerMessageId := Some(answer.message)))
  }

  datatype Kind = EmailSent | DeliveryDelayed | EmailDelivered | EmailBounced | EmailComplained | EmailFailed | EmailSuppressed | OtherKind

  function TerminalState(kind: Kind): Option<Delivery> {
    match kind
    case EmailDelivered => Some(ProviderDelivered)
    case EmailBounced => Some(ProviderBounced)
    case EmailComplained => Some(ProviderComplained)
    case EmailFailed => Some(ProviderFailed)
    case EmailSuppressed => Some(ProviderSuppressed)
    case _ => None
  }

  datatype Correlation = Target(client: ClientId) | Conflict | Nothing

  /** By message id and by signed tag; disagreement resolves to nothing being written. */
  ghost function Correlate(db: Db, message: MessageId, tag: Option<Key>): (r: Correlation)
    ensures r.Target? ==> r.client in db.rows
  {
    var byMessage := FindByMessage(db, message);
    var byOperation := if tag.Some? then FindByOperation(db, tag.value) else None;
    if byMessage.Some? && byOperation.Some? && byMessage != byOperation then Conflict
    else if byOperation.Some? && db.rows[byOperation.value].providerMessageId.Some?
            && db.rows[byOperation.value].providerMessageId != Some(message) then Conflict
    else if byMessage.Some? then Target(byMessage.value)
    else if byOperation.Some? then Target(byOperation.value)
    else Nothing
  }

  /** A verified webhook event; one without a message id, or of another kind, is acknowledged and ignored. */
  ghost function Webhook(db: Db, message: Option<MessageId>, tag: Option<Key>, kind: Kind): Db {
    if message.None? || kind.OtherKind? then db
    else
      var target := Correlate(db, message.value, tag);
      if !target.Target? then db
      else
        var row := db.rows[target.client];
        var reconciling := kind.EmailSent? || kind.DeliveryDelayed?;
        if reconciling && !row.deliveryState.AutomatedUnconfirmed? then db
        else if MessageTaken(db, target.client, message.value) then db
        else
          var state := if reconciling then AutomatedAccepted else TerminalState(kind).value;
          Write(db, target.client, row.(deliveryState := state, providerMessageId := message))
  }

  // ---------------------------------------------------------------- the invitee

  predicate Eligible(row: Invitation, now: Instant) {
    (row.status.Sent? || row.status.Opened?) && row.expiresAt.Some? && row.expiresAt.value >= now
  }

  /** The explicit Continue: the only step from Sent to Opened. */
  ghost function Continue(db: Db, token: Token, now: Instant): (Db, Outcome) {
    var found := FindByToken(db, Digest(token));
    if found.None? || !Eligible(db.rows[found.value], now) then (db, Refused(NotEligible))
    else
      var row := db.rows[found.value];
      if row.status.Opened? then (db, NoChange)
      else
        var updated := row.(status := Opened, openedAt := Some(now));
        (WriteAudited(db, found.value, updated, OpenedEntry, Anonymous, None), Applied)
  }

  function EmailVerified(row: Invitation): bool {
    match row.deliveryMethod
    case Some(AutomatedEmail) => row.deliveryState.AutomatedAccepted? || row.deliveryState.ProviderDelivered?
    case Some(ManualEmail) => row.deliveryState.ManuallyConfirmed?
    case None => false
  }

  predicate EmailInUse(users: seq<User>, email: string) {
    exists u :: 0 <= u < |users| && users[u].email == email
  }

  predicate HasProfile(profiles: seq<Profile>, c: ClientId) {
    exists p :: 0 <= p < |profiles| && profiles[p].client == c
  }

  /** User, credential account and client profile are created together. */
  function CreateAccount(db: Db, c: ClientId, name: string, email: string, passwordHash: string, verified: bool): Db {
    db.(users := db.users + [User(name, email, verified)],
        accounts := db.accounts + [Account(|db.users|, passwordHash)],
        profiles := db.profiles + [Profile(|db.users|, c)])
  }

  ghost function Activate(db: Db, token: Token, now: Instant, name: string, passwordHash: string): (Db, Outcome) {
    var found := FindByToken(db, Digest(token));
    if found.None? || !Eligible(db.rows[found.value], now) then (db, Refused(NotEligible))
    else
      var c, row := found.value, db.rows[found.value];
      if row.destinationEmail.None? || row.destinationEmail.value == "" then (db, Refused(NotEligible))
      else if EmailInUse(db.users, row.destinationEmail.value) || HasProfile(db.profiles, c) then (db, Refused(NotEligible))
      else
        var created := CreateAccount(db, c, name, row.destinationEmail.value, passwordHash, EmailVerified(row));
        var updated := row.(status := Activated, activatedAt := Some(now));
        (WriteAudited(created, c, updated, ActivatedEntry, NewUser(|db.users|), None), Applied)
  }
}
