/** The invitation and activation tables as the transactions update them in place. */
module Portal {
  import opened Wrappers
  import opened Invitations

  lemma WriteKeepsUnique(db: Db, c: ClientId, row: Invitation)
    requires Unique(db)
    requires row.tokenHash.Some? ==> !TokenTaken(db, c, row.tokenHash.value)
    requires row.sendOperationId.Some? ==> !OperationTaken(db, c, row.sendOperationId.value)
    requires row.providerMessageId.Some? ==> !MessageTaken(db, c, row.providerMessageId.value)
    ensures Unique(Write(db, c, row))
  {
    var db' := Write(db, c, row);
    forall x, y, d | HasToken(db', x, d) && HasToken(db', y, d) ensures x == y {
      assert x != c ==> HasToken(db, x, d);
      assert y != c ==> HasToken(db, y, d);
    }
    forall x, y, k | HasOperation(db', x, k) && HasOperation(db', y, k) ensures x == y {
      assert x != c ==> HasOperation(db, x, k);
      assert y != c ==> HasOperation(db, y, k);
    }
    forall x, y, m | HasMessage(db', x, m) && HasMessage(db', y, m) ensures x == y {
      assert x != c ==> HasMessage(db, x, m);
      assert y != c ==> HasMessage(db, y, m);
    }
  }

  /** Rewriting a row without touching its three unique columns, or clearing some, keeps the indexes unique. */
  lemma RewriteKeepsUnique(db: Db, c: ClientId, row: Invitation)
    requires Unique(db) && c in db.rows
    requires row.tokenHash.None? || row.tokenHash == db.rows[c].tokenHash
    requires row.sendOperationId.None? || row.sendOperationId == db.rows[c].sendOperationId
    requires row.providerMessageId.None? || row.providerMessageId == db.rows[c].providerMessageId
      || !MessageTaken(db, c, row.providerMessageId.value)
    ensures Unique(Write(db, c, row))
  {
    if row.tokenHash.Some? {
      assert HasToken(db, c, row.tokenHash.value);
    }
    if row.sendOperationId.Some? {
      assert HasOperation(db, c, row.sendOperationId.value);
    }
    if row.providerMessageId.Some? && row.providerMessageId == db.rows[c].providerMessageId {
      assert HasMessage(db, c, row.providerMessageId.value);
    }
    WriteKeepsUnique(db, c, row);
  }

  /** The unique indexes look only at the rows. */
  lemma UniqueReadsRows(db: Db, db': Db)
    requires Unique(db) && db'.rows == db.rows
    ensures Unique(db')
  {
    assert forall c, d :: HasToken(db', c, d) <==> HasToken(db, c, d);
    assert forall c, k :: HasOperation(db', c, k) <==> HasOperation(db, c, k);
    assert forall c, m :: HasMessage(db', c, m) <==> HasMessage(db, c, m);
  }

  /** The indexed columns of a reserved row. */
  lemma ReservedColumns(row: Invitation, key: Key, channel: Channel, token: Token, now: Instant, email: string)
    ensures var row' := ReservedRow(row, key, channel, token, now, email);
            && row'.tokenHash == Some(Digest(token)) && row'.providerMessageId.None?
            && row'.sendOperationId == if channel.AutomatedEmail? then Some(key) else None
  {
  }

  /** The unique indexes as a query over the rows reads them. */
  lemma TakenInRows(db: Db, c: ClientId, d: Digest, k: Key)
    ensures TokenTaken(db, c, d) <==> exists x | x in db.rows :: x != c && db.rows[x].tokenHash == Some(d)
    ensures OperationTaken(db, c, k) <==> exists x | x in db.rows :: x != c && db.rows[x].sendOperationId == Some(k)
  {
    assert forall x :: HasToken(db, x, d) <==> x in db.rows && db.rows[x].tokenHash == Some(d);
    assert forall x :: HasOperation(db, x, k) <==> x in db.rows && db.rows[x].sendOperationId == Some(k);
  }

  class Portal {
    var rows: map<ClientId, Invitation>
    var users: seq<User>
    var accounts: seq<Account>
    var profiles: seq<Profile>
    var audit: seq<AuditEntry>
    var clock: nat

    ghost function State(): Db
      reads this
    {
      Db(rows, users, accounts, profiles, audit, clock)
    }

    constructor ()
      ensures State() == Db(map[], [], [], [], [], 0) && Unique(State())
    {
      rows, users, accounts, profiles, audit, clock := map[], [], [], [], [], 0;
    }

    method WriteRow(c: ClientId, row: Invitation)
      modifies this
      ensures State() == Write(old(State()), c, row)
    {
      rows := rows[c := row.(updatedAt := clock)];
      clock := clock + 1;
    }

    method Log(action: Action, c: ClientId, actor: Actor, before: Option<Snapshot>, after: Snapshot, reason: Option<string>)
      modifies this
      ensures State() == old(State()).(audit := old(audit) + [AuditEntry(action, c, actor, before, after, reason)])
    {
      audit := audit + [AuditEntry(action, c, actor, before, after, reason)];
    }

    method Prepare(c: ClientId, clientExists: bool, staff: StaffId) returns (outcome: Outcome)
      requires Unique(State())
      modifies this
      ensures (State(), outcome) == Invitations.Prepare(old(State()), c, clientExists, staff)
      ensures Unique(State())
    {
      if c in rows {
        return if rows[c].status.Prepared? then NoChange else Refused(InvitationAlreadyExists);
      }
      if !clientExists {
        return Refused(ClientNotFound);
      }
      WriteKeepsUnique(State(), c, NewInvitation);
      WriteRow(c, NewInvitation);
      UniqueReadsRows(State(), Invitations.Prepare(old(State()), c, clientExists, staff).0);
      Log(PreparedEntry, c, Staff(staff), None, Sanitize(NewInvitation), None);
      return Applied;
    }

    method Reserve(key: Key, request: Request, token: Token, context: Context) returns (outcome: Outcome)
      requires Unique(State()) && !request.ConfirmRequest?
      modifies this
      ensures (State(), outcome) == Invitations.Reserve(old(State()), key, request, token, context)
      ensures Unique(State())
    {
      hide Unique, TokenTaken, OperationTaken, MessageTaken, ReservedRow, IsStale, Sendable;
      var c := request.client;
      var automated := request.channel.AutomatedEmail?;
      if automated && !context.deliveryEnabled {
        return Refused(DeliveryDisabled);
      }
      if c !in rows {
        return Refused(InvitationNotFound);
      }
      var row := rows[c];
      if row.deliveryMethod == Some(AutomatedEmail) && row.sendOperationId == Some(key) {
        return AlreadyReserved;
      }
      if !Sendable(request, row.status) {
        return Refused(InvitationNotSendable);
      }
      if IsStale(request, row) {
        return Refused(SendOperationStale);
      }
      if context.clientEmail.None? || context.clientEmail.value == "" {
        return Refused(ClientEmailMissing);
      }
      var tokenTaken := exists x | x in rows :: x != c && rows[x].tokenHash == Some(Digest(token));
      var operationTaken := exists x | x in rows :: x != c && rows[x].sendOperationId == Some(key);
      TakenInRows(State(), c, Digest(token), key);
      if tokenTaken || (automated && operationTaken) {
        return Refused(UniqueViolation);
      }
      var updated := ReservedRow(row, key, request.channel, token, context.now, context.clientEmail.value);
      ReservedColumns(row, key, request.channel, token, context.now, context.clientEmail.value);
      WriteKeepsUnique(State(), c, updated);
      WriteRow(c, updated);
      UniqueReadsRows(State(), Invitations.Reserve(old(State()), key, request, token, context).0);
      if automated || request.ResendRequest? {
        var action := if request.ResendRequest? then Resent else SentAutomated;
        Log(action, c, Staff(context.staff), Some(Sanitize(row)), Sanitize(updated), None);
      }
      return Fresh;
    }

    method Confirm(key: Key, c: ClientId, context: Context) returns (outcome: Outcome)
      requires Unique(State())
      modifies this
      ensures (State(), outcome) == Invitations.Confirm(old(State()), key, c, context)
      ensures Unique(State())
    {
      if c !in rows {
        return Refused(InvitationNotFound);
      }
      var row := rows[c];
      if row.deliveryState.ManuallyConfirmed? {
        return NoChange;
      }
      if !row.status.Sent? || row.deliveryMethod.Some? {
        return Refused(InvitationNotSendable);
      }
      var operationTaken := exists x | x in rows :: x != c && rows[x].sendOperationId == Some(key);
      assert operationTaken == OperationTaken(State(), c, key) by {
        assert forall x :: HasOperation(State(), x, key) <==> x in rows && rows[x].sendOperationId == Some(key);
      }
      if operationTaken {
        return Refused(UniqueViolation);
      }
      var updated := Confirmed(row, key, context);
      if row.tokenHash.Some? {
        assert HasToken(State(), c, row.tokenHash.value);
      }
      if row.providerMessageId.Some? {
        assert HasMessage(State(), c, row.providerMessageId.value);
      }
      WriteKeepsUnique(State(), c, updated);
      WriteRow(c, updated);
      UniqueReadsRows(State(), Invitations.Confirm(old(State()), key, c, context).0);
      Log(SentManualConfirmed, c, Staff(context.staff), Some(Sanitize(row)), Sanitize(updated), None);
      return Applied;
    }

    method Revoke(c: ClientId, reason: string, context: Context) returns (outcome: Outcome)
      requires Unique(State())
      modifies this
      ensures (State(), outcome) == Invitations.Revoke(old(State()), c, reason, context)
      ensures Unique(State())
    {
      if c !in rows {
        return Refused(InvitationNotFound);
      }
      var row := rows[c];
      if row.status.Revoked? {
        return NoChange;
      }
      if row.status.Activated? {
        return Refused(AlreadyActivated);
      }
      var updated := RevokedRow(row, context.now);
      RewriteKeepsUnique(State(), c, updated);
      WriteRow(c, updated);
      UniqueReadsRows(State(), Invitations.Revoke(old(State()), c, reason, context).0);
      Log(RevokedEntry, c, Staff(context.staff), Some(Sanitize(row)), Sanitize(updated), Some(reason));
      return Applied;
    }

    method RecordOutcome(c: ClientId, key: Key, answer: Answer)
      requires Unique(State())
      modifies this
      ensures State() == Invitations.RecordOutcome(old(State()), c, key, answer)
      ensures Unique(State())
    {
      if answer.Ambiguous? || c !in rows {
        return;
      }
      var row := rows[c];
      if row.sendOperationId != Some(key) || !row.deliveryState.AutomatedUnconfirmed? {
        return;
      }
      if answer.Rejected? {
        RewriteKeepsUnique(State(), c, row.(deliveryState := ProviderFailed, providerMessageId := None));
        WriteRow(c, row.(deliveryState := ProviderFailed, providerMessageId := None));
      } else {
        StoreEvidence(c, AutomatedAccepted, answer.message);
      }
    }

    /** Writes a delivery state with its message id, unless another row already holds that message. */
    method StoreEvidence(c: ClientId, state: Delivery, message: MessageId)
      requires Unique(State()) && c in rows
      modifies this
      ensures State() ==
              if MessageTaken(old(State()), c, message) then old(State())
              else Write(old(State()), c, old(rows)[c].(deliveryState := state, providerMessageId := Some(message)))
      ensures Unique(State())
    {
      var messageTaken := exists x | x in rows :: x != c && rows[x].providerMessageId == Some(message);
      assert messageTaken == MessageTaken(State(), c, message) by {
        assert forall x :: HasMessage(State(), x, message) <==> x in rows && rows[x].providerMessageId == Some(message);
      }
      if !messageTaken {
        RewriteKeepsUnique(State(), c, rows[c].(deliveryState := state, providerMessageId := Some(message)));
        WriteRow(c, rows[c].(deliveryState := state, providerMessageId := Some(message)));
      }
    }

    method Correlate(message: MessageId, tag: Option<Key>) returns (r: Correlation)
      requires Unique(State())
      ensures r == Invitations.Correlate(State(), message, tag)
    {
      var byMessage: Option<ClientId> := None;
      if c :| c in rows && rows[c].providerMessageId == Some(message) {
        assert HasMessage(State(), c, message);
        byMessage := Some(c);
      }
      assert byMessage == FindByMessage(State(), message);
      var byOperation: Option<ClientId> := None;
      if tag.Some? {
        if c :| c in rows && rows[c].sendOperationId == tag {
          assert HasOperation(State(), c, tag.value);
          byOperation := Some(c);
        }
        assert byOperation == FindByOperation(State(), tag.value);
      }
      if byMessage.Some? && byOperation.Some? && byMessage != byOperation {
        return Conflict;
      }
      if byOperation.Some? && rows[byOperation.value].providerMessageId.Some?
         && rows[byOperation.value].providerMessageId != Some(message) {
        return Conflict;
      }
      if byMessage.Some? {
        return Target(byMessage.value);
      }
      return if byOperation.Some? then Target(byOperation.value) else Nothing;
    }

    method Webhook(message: Option<MessageId>, tag: Option<Key>, kind: Kind)
      requires Unique(State())
      modifies this
      ensures State() == Invitations.Webhook(old(State()), message, tag, kind)
      ensures Unique(State())
    {
      if message.None? || kind.OtherKind? {
        return;
      }
      var target := Correlate(message.value, tag);
      if target.Target? {
        if kind.EmailSent? || kind.DeliveryDelayed? {
          if rows[target.client].deliveryState.AutomatedUnconfirmed? {
            StoreEvidence(target.client, AutomatedAccepted, message.value);
          }
        } else {
          StoreEvidence(target.client, TerminalState(kind).value, message.value);
        }
      }
    }

    method LookUp(token: Token) returns (found: Option<ClientId>)
      requires Unique(State())
      ensures found == FindByToken(State(), Digest(token))
    {
      found := None;
      if c :| c in rows && rows[c].tokenHash == Some(Digest(token)) {
        assert HasToken(State(), c, Digest(token));
        found := Some(c);
      }
    }

    method Continue(token: Token, now: Instant) returns (outcome: Outcome)
      requires Unique(State())
      modifies this
      ensures (State(), outcome) == Invitations.Continue(old(State()), token, now)
      ensures Unique(State())
    {
      var found := LookUp(token);
      if found.None? || !Eligible(rows[found.value], now) {
        return Refused(NotEligible);
      }
      var c, row := found.value, rows[found.value];
      if row.status.Opened? {
        return NoChange;
      }
      var updated := row.(status := Opened, openedAt := Some(now));
      RewriteKeepsUnique(State(), c, updated);
      WriteRow(c, updated);
      UniqueReadsRows(State(), Invitations.Continue(old(State()), token, now).0);
      Log(OpenedEntry, c, Anonymous, Some(Sanitize(row)), Sanitize(updated), None);
      return Applied;
    }

    method Activate(token: Token, now: Instant, name: string, passwordHash: string) returns (outcome: Outcome)
      requires Unique(State())
      modifies this
      ensures (State(), outcome) == Invitations.Activate(old(State()), token, now, name, passwordHash)
      ensures Unique(State())
    {
      var found := LookUp(token);
      if found.None? || !Eligible(rows[found.value], now) {
        return Refused(NotEligible);
      }
      var c, row := found.value, rows[found.value];
      if row.destinationEmail.None? || row.destinationEmail.value == "" {
        return Refused(NotEligible);
      }
      if EmailInUse(users, row.destinationEmail.value) || HasProfile(profiles, c) {
        return Refused(NotEligible);
      }
      var user := |users|;
      users := users + [User(name, row.destinationEmail.value, EmailVerified(row))];
      accounts := accounts + [Account(user, passwordHash)];
      profiles := profiles + [Profile(user, c)];
      var updated := row.(status := Activated, activatedAt := Some(now));
      RewriteKeepsUnique(old(State()), c, updated);
      WriteRow(c, updated);
      UniqueReadsRows(Write(old(State()), c, updated), Invitations.Activate(old(State()), token, now, name, passwordHash).0);
      Log(ActivatedEntry, c, NewUser(user), Some(Sanitize(row)), Sanitize(updated), None);
      return Applied;
    }
  }
}
