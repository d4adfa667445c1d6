/** Every event the environment may produce keeps the invariants of the invitation protocol. */
module InvitationProofs {
  import opened Wrappers
  import opened Invitations
  import opened InvitationRuns

  /** History only grows; nothing recorded is revised. */
  ghost predicate Grows(h: History, h': History) {
    && h.reservations <= h'.reservations
    && (forall k | k in h.requests :: k in h'.requests && h'.requests[k] == h.requests[k])
    && (forall k | k in h.vouched :: k in h'.vouched && h'.vouched[k] == h.vouched[k])
    && (forall t | t in h.attested :: t in h'.attested && h'.attested[t] == h.attested[t])
    && h.time <= h'.time
  }

  lemma TracedGrows(h: History, h': History, c: ClientId, row: Invitation)
    requires Traced(h, c, row) && Grows(h, h')
    requires c in h'.current <==> c in h.current
    requires c in h.current ==> h'.current[c] == h.current[c]
    requires c in h.current ==> (h.current[c] in h'.attested <==> h.current[c] in h.attested)
    ensures Traced(h', c, row)
  {
  }

  /** The one row a transaction overwrites carries the new facts; every other row keeps its own. */
  lemma RowsAfterWrite(w: World, w': World, c: ClientId, row: Invitation)
    requires RowsOk(w) && Grows(w.h, w'.h)
    requires w'.db.rows == w.db.rows[c := row.(updatedAt := w.db.clock)] && w'.db.clock == w.db.clock + 1
    requires forall x | x != c :: x in w'.h.current <==> x in w.h.current
    requires forall x | x != c && x in w.h.current :: w'.h.current[x] == w.h.current[x]
    requires forall x | x != c && x in w.h.current :: w.h.current[x] in w'.h.attested <==> w.h.current[x] in w.h.attested
    requires Evidence(row) && Traced(w'.h, c, row)
    ensures RowsOk(w')
  {
    forall x | x in w'.db.rows ensures Evidence(w'.db.rows[x]) && Traced(w'.h, x, w'.db.rows[x]) {
      if x != c {
        TracedGrows(w.h, w'.h, x, w.db.rows[x]);
      }
    }
  }

  lemma RowFacts(w: World, c: ClientId)
    requires RowsOk(w) && c in w.db.rows
    ensures Evidence(w.db.rows[c]) && Traced(w.h, c, w.db.rows[c]) && w.db.rows[c].updatedAt < w.db.clock
  {
  }

  lemma NoRowNoToken(w: World, c: ClientId)
    requires RowsOk(w) && c !in w.db.rows
    ensures c !in w.h.current
  {
  }

  lemma RowsAfterNothing(w: World, w': World)
    requires RowsOk(w) && Grows(w.h, w'.h) && w'.h.current == w.h.current && w'.h.attested == w.h.attested
    requires w'.db.rows == w.db.rows && w'.db.clock == w.db.clock
    ensures RowsOk(w')
  {
    forall x | x in w'.db.rows ensures Evidence(w'.db.rows[x]) && Traced(w'.h, x, w'.db.rows[x]) {
      TracedGrows(w.h, w'.h, x, w.db.rows[x]);
    }
  }

  /** A row write that neither reserves nor activates. */
  ghost predicate QuietWrite(w: World, w': World, c: ClientId, row: Invitation) {
    && w'.db.rows == w.db.rows[c := row.(updatedAt := w.db.clock)] && w'.db.clock == w.db.clock + 1
    && w'.db.users == w.db.users && w'.db.accounts == w.db.accounts && w'.db.profiles == w.db.profiles
    && w'.h.reservations == w.h.reservations && w'.h.issued == w.h.issued && w'.h.current == w.h.current
    && w'.h.activations == w.h.activations
    && Grows(w.h, w'.h)
    && (c in w.db.rows ==>
          && (row.status.Prepared? ==> w.db.rows[c].status.Prepared?)
          && (row.status.Activated? <==> w.db.rows[c].status.Activated?))
    && (c !in w.db.rows ==> !row.status.Activated?)
  }

  lemma ReservationsAfterQuietWrite(w: World, w': World, c: ClientId, row: Invitation)
    requires RowsOk(w) && ReservationsOk(w) && QuietWrite(w, w', c, row)
    ensures ReservationsOk(w')
  {
    forall t | 0 <= t < |w.h.reservations| ensures ReservationOk(w', t) {
      assert ReservationOk(w, t);
    }
  }

  lemma ActivationStays(w: World, w': World, c: ClientId, row: Invitation, a: Activation)
    requires ActivationOk(w, a) && Grows(w.h, w'.h)
    requires w'.db.rows == w.db.rows[c := row.(updatedAt := w.db.clock)]
    requires c in w.db.rows && w.db.rows[c].status.Activated? ==> row.status.Activated?
    requires a.client in w'.h.current && w'.h.current[a.client] == w.h.current[a.client]
    ensures ActivationOk(w', a)
  {
  }

  lemma AccountStays(db: Db, db': Db, i: nat, a: Activation)
    requires i < |db.profiles| == |db.accounts| && AccountOf(db, i, a)
    requires db.profiles <= db'.profiles && db.accounts <= db'.accounts && db.users <= db'.users
    requires |db'.profiles| == |db'.accounts|
    ensures AccountOf(db', i, a)
  {
  }

  /** What one activation's client tells about the tables. */
  lemma ActivatedClient(w: World, a: Activation)
    requires ActivationOk(w, a)
    ensures a.client in w.db.rows && w.db.rows[a.client].status.Activated? && a.client in w.h.current
  {
  }

  lemma ActivationsAfterQuietWrite(w: World, w': World, c: ClientId, row: Invitation)
    requires ActivationsOk(w) && QuietWrite(w, w', c, row)
    ensures ActivationsOk(w')
  {
    hide ActivationOk, AccountOf, Grows;
    var acts := w.h.activations;
    forall i: nat | i < |acts| ensures ActivationOk(w', acts[i]) && AccountOf(w'.db, i, acts[i]) {
      ActivatedClient(w, acts[i]);
      ActivationStays(w, w', c, row, acts[i]);
      AccountStays(w.db, w'.db, i, acts[i]);
    }
    forall x | x in w'.db.rows && w'.db.rows[x].status.Activated?
      ensures exists i :: 0 <= i < |acts| && acts[i].client == x
    {
      assert x in w.db.rows && w.db.rows[x].status.Activated?;
    }
  }

  lemma CountOne(audit: seq<AuditEntry>, entry: AuditEntry, action: Action)
    ensures Count(audit + [entry], action) == Count(audit, action) + if entry.action == action then 1 else 0
  {
    assert (audit + [entry])[..|audit|] == audit;
  }

  lemma CountEntry(audit: seq<AuditEntry>, entry: AuditEntry)
    ensures forall action :: Count(audit + [entry], action) == Count(audit, action) + if entry.action == action then 1 else 0
  {
    forall action {
      CountOne(audit, entry, action);
    }
  }

  lemma AuditUnmoved(w: World, w': World)
    requires AuditOk(w) && w'.db.audit == w.db.audit && w'.h.reservations == w.h.reservations
    requires w'.h.openings == w.h.openings && w'.h.activations == w.h.activations
    ensures AuditOk(w')
  {
  }

  /** One more entry, counted where the history says so. */
  lemma AuditGrows(w: World, w': World, entry: AuditEntry)
    requires AuditOk(w) && w'.db.audit == w.db.audit + [entry] && w'.h.reservations == w.h.reservations
    requires |w'.h.openings| == |w.h.openings| + if entry.action == OpenedEntry then 1 else 0
    requires |w'.h.activations| == |w.h.activations| + if entry.action == ActivatedEntry then 1 else 0
    requires entry.action != Resent
    ensures AuditOk(w')
  {
    CountEntry(w.db.audit, entry);
  }

  lemma ReservationsFrame(w: World, w': World)
    requires ReservationsOk(w)
    requires w'.db.rows == w.db.rows && w'.h.reservations == w.h.reservations && w'.h.issued == w.h.issued && w'.h.current == w.h.current
    requires Grows(w.h, w'.h)
    ensures ReservationsOk(w')
  {
    forall t | 0 <= t < |w.h.reservations| ensures ReservationOk(w', t) {
      assert ReservationOk(w, t);
    }
  }

  lemma ProviderFrame(h: History, h': History)
    requires ProviderOk(h) && Grows(h, h')
    requires h'.reservations == h.reservations && h'.inFlight == h.inFlight && h'.calls == h.calls
    requires forall t | t in h'.pending :: t in h.pending && h'.pending[t] == h.pending[t]
    ensures ProviderOk(h')
  {
  }

  lemma TimesFrame(h: History, h': History)
    requires TimesOk(h) && h.time <= h'.time
    requires h'.reservations == h.reservations && h'.issued == h.issued
    requires h'.vouched == h.vouched && h'.attested == h.attested
    ensures TimesOk(h')
  {
  }

  /** No row becomes Sent, or gets another token while Sent. */
  lemma OpenedFrame(w: World, w': World)
    requires OpenedOk(w) && w'.h.openings == w.h.openings && w'.h.reservations == w.h.reservations
    requires forall c | c in w'.db.rows && w'.db.rows[c].status.Sent? ::
               c in w.db.rows && w.db.rows[c].status.Sent? && w'.db.rows[c].tokenHash == w.db.rows[c].tokenHash
    ensures OpenedOk(w')
  {
  }

  lemma OpenedAfterWrite(w: World, w': World, c: ClientId, row: Invitation)
    requires OpenedOk(w) && w'.h.openings == w.h.openings && w'.h.reservations == w.h.reservations
    requires w'.db.rows == w.db.rows[c := row.(updatedAt := w.db.clock)]
    requires row.status.Sent? ==>
               c in w.db.rows && w.db.rows[c].status.Sent? && row.tokenHash == w.db.rows[c].tokenHash
    ensures OpenedOk(w')
  {
    forall x | x in w'.db.rows && w'.db.rows[x].status.Sent?
      ensures x in w.db.rows && w.db.rows[x].status.Sent? && w'.db.rows[x].tokenHash == w.db.rows[x].tokenHash
    {
      if x == c {
      }
    }
    OpenedFrame(w, w');
  }

  lemma ActivationsFrame(w: World, w': World)
    requires ActivationsOk(w) && w'.db.rows == w.db.rows && w'.h.activations == w.h.activations
    requires w'.db.profiles == w.db.profiles && w'.db.accounts == w.db.accounts && w.db.users <= w'.db.users
    requires w'.h.reservations == w.h.reservations && w'.h.issued == w.h.issued && w'.h.current == w.h.current && Grows(w.h, w'.h)
    ensures ActivationsOk(w')
  {
    forall i | 0 <= i < |w.h.activations| ensures ActivationOk(w', w.h.activations[i]) {
      assert ActivationOk(w, w.h.activations[i]);
    }
  }

  /** Nothing but the clock of the history, and perhaps another account or a fact about a key, is new. */
  lemma IdleStep(w: World, w': World)
    requires Inv(w) && w'.h == w.h.(time := w.h.time + 1, requests := w'.h.requests) && Grows(w.h, w'.h)
    requires w'.db == w.db.(users := w'.db.users) && w.db.users <= w'.db.users
    ensures Inv(w')
  {
    hide RowsOk, ReservationsOk, ProviderOk, TimesOk, OpenedOk, ActivationsOk;
    RowsAfterNothing(w, w');
    ReservationsFrame(w, w');
    ProviderFrame(w.h, w'.h);
    TimesFrame(w.h, w'.h);
    OpenedFrame(w, w');
    ActivationsFrame(w, w');
  }

  /** A quiet write that leaves openings, provider calls and evidence times alone. */
  lemma QuietStep(w: World, w': World, c: ClientId, row: Invitation)
    requires Inv(w) && QuietWrite(w, w', c, row) && Evidence(row) && Traced(w'.h, c, row)
    requires row.status.Sent? ==>
               c in w.db.rows && w.db.rows[c].status.Sent? && row.tokenHash == w.db.rows[c].tokenHash
    requires w'.h == w.h.(time := w.h.time + 1, requests := w'.h.requests)
    requires AuditOk(w')
    ensures Inv(w')
  {
    hide RowsOk, ReservationsOk, ProviderOk, TimesOk, OpenedOk, ActivationsOk;
    RowsAfterWrite(w, w', c, row);
    ReservationsAfterQuietWrite(w, w', c, row);
    ProviderFrame(w.h, w'.h);
    TimesFrame(w.h, w'.h);
    OpenedAfterWrite(w, w', c, row);
    ActivationsAfterQuietWrite(w, w', c, row);
  }

  // ---------------------------------------------------------------- staff events

  lemma NewRowOk(h: History, c: ClientId)
    requires c !in h.current
    ensures Evidence(NewInvitation) && Traced(h, c, NewInvitation)
  {
  }

  lemma PrepareKeepsInv(w: World, e: Event)
    requires Inv(w) && e.PrepareEvent?
    ensures Inv(Step(w, e))
  {
    hide RowsOk, ReservationsOk, ProviderOk, TimesOk, OpenedOk, ActivationsOk, AuditOk, Evidence, Traced, Count;
    hide SubmitStep, CallStep, OutcomeStep, WebhookStep, ContinueStep, ActivateStep, Revoke;
    var w' := Step(w, e);
    var c := e.client;
    if c in w.db.rows || !e.clientExists {
      IdleStep(w, w');
    } else {
      NoRowNoToken(w, c);
      NewRowOk(w'.h, c);
      AuditGrows(w, w', w'.db.audit[|w.db.audit|]);
      QuietStep(w, w', c, NewInvitation);
    }
  }

  lemma RevokedRowOk(h: History, c: ClientId, row: Invitation, now: Instant)
    requires Evidence(row) && Traced(h, c, row) && !row.status.Revoked? && !row.status.Activated?
    ensures Evidence(RevokedRow(row, now)) && Traced(h, c, RevokedRow(row, now))
  {
  }

  lemma RevokeKeepsInv(w: World, e: Event)
    requires Inv(w) && e.RevokeEvent?
    ensures Inv(Step(w, e))
  {
    hide RowsOk, ReservationsOk, ProviderOk, TimesOk, OpenedOk, ActivationsOk, AuditOk, Evidence, Traced, Count;
    hide SubmitStep, CallStep, OutcomeStep, WebhookStep, ContinueStep, ActivateStep, Prepare;
    var w' := Step(w, e);
    var c := e.client;
    if c !in w.db.rows || w.db.rows[c].status.Revoked? || w.db.rows[c].status.Activated? {
      IdleStep(w, w');
    } else {
      RowFacts(w, c);
      TracedGrows(w.h, w'.h, c, w.db.rows[c]);
      RevokedRowOk(w'.h, c, w.db.rows[c], e.context.now);
      AuditGrows(w, w', w'.db.audit[|w.db.audit|]);
      QuietStep(w, w', c, RevokedRow(w.db.rows[c], e.context.now));
    }
  }

  lemma IssuedEarlier(w: World, t: Token)
    requires ReservationsOk(w) && t < |w.h.reservations|
    ensures w.h.reservations[t].at < w.h.time
  {
    assert ReservationOk(w, t);
  }

  lemma AttestedTimes(h: History, h': History, token: Token)
    requires TimesOk(h) && token < |h.reservations| && h.reservations[token].at < h.time
    requires h'.reservations == h.reservations && h'.issued == h.issued && h'.vouched == h.vouched
    requires h'.attested == FirstTime(h.attested, token, h.time) && h'.time == h.time + 1
    ensures TimesOk(h')
  {
    forall t | t in h'.attested ensures t < |h.reservations| && h.reservations[t].at < h'.attested[t] < h'.time {
      assert t in h.attested || (t == token && h'.attested[t] == h.time);
    }
  }

  /** A row that may be confirmed carries the client's current token. */
  lemma ConfirmableRow(h: History, c: ClientId, row: Invitation)
    requires Evidence(row) && Traced(h, c, row) && row.status.Sent? && row.deliveryMethod.None?
    ensures row.tokenHash.Some? && IsCurrent(h, c, row.tokenHash.value.token)
  {
  }

  lemma ConfirmedRowOk(h: History, h': History, c: ClientId, row: Invitation, key: Key, context: Context)
    requires Evidence(row) && Traced(h, c, row) && row.status.Sent? && row.deliveryMethod.None? && Grows(h, h')
    requires h'.current == h.current && h'.reservations == h.reservations && row.tokenHash.value.token in h'.attested
    requires key in h'.requests && h'.requests[key] == ConfirmRequest(c)
    ensures Evidence(Confirmed(row, key, context)) && Traced(h', c, Confirmed(row, key, context))
  {
  }

  /** What a successful confirmation leaves behind, in one place. */
  ghost predicate IsConfirmation(w: World, w': World, c: ClientId, key: Key, context: Context, entry: AuditEntry) {
    && c in w.db.rows
    && w.db.rows[c].status.Sent? && w.db.rows[c].deliveryMethod.None? && w.db.rows[c].tokenHash.Some?
    && entry.action == SentManualConfirmed
    && w'.db == Write(w.db, c, Confirmed(w.db.rows[c], key, context)).(audit := w.db.audit + [entry])
    && w'.h == w.h.(
         time := w.h.time + 1,
         requests := w.h.requests[key := ConfirmRequest(c)],
         attested := FirstTime(w.h.attested, w.db.rows[c].tokenHash.value.token, w.h.time))
  }

  lemma ConfirmationIsQuiet(w: World, w': World, c: ClientId, key: Key, context: Context, entry: AuditEntry)
    requires IsConfirmation(w, w', c, key, context, entry) && (key in w.h.requests ==> w.h.requests[key] == ConfirmRequest(c))
    ensures c in w.db.rows && w.db.rows[c].status.Sent? && w.db.rows[c].deliveryMethod.None? && w.db.rows[c].tokenHash.Some?
    ensures var row, token := Confirmed(w.db.rows[c], key, context), w.db.rows[c].tokenHash.value.token;
            && Grows(w.h, w'.h) && QuietWrite(w, w', c, row)
            && w'.db.rows == w.db.rows[c := row.(updatedAt := w.db.clock)] && w'.db.clock == w.db.clock + 1
            && row.status.Sent? && row.tokenHash == w.db.rows[c].tokenHash
            && w'.h == w.h.(time := w.h.time + 1, requests := w.h.requests[key := ConfirmRequest(c)],
                            attested := FirstTime(w.h.attested, token, w.h.time))
            && token in w'.h.attested
            && entry.action == SentManualConfirmed && w'.db.audit == w.db.audit + [entry]
  {
  }

  /** Attesting one client's current token says nothing of another's. */
  lemma OthersUnattested(w: World, h': History, c: ClientId, token: Token)
    requires ReservationsOk(w) && IsCurrent(w.h, c, token) && h'.attested == FirstTime(w.h.attested, token, w.h.time)
    ensures forall x | x != c && x in w.h.current :: w.h.current[x] in h'.attested <==> w.h.current[x] in w.h.attested
  {
  }

  lemma ConfirmationKeepsInv(w: World, w': World, c: ClientId, key: Key, context: Context, entry: AuditEntry)
    requires Inv(w) && IsConfirmation(w, w', c, key, context, entry)
    requires key in w.h.requests ==> w.h.requests[key] == ConfirmRequest(c)
    ensures Inv(w')
  {
    hide RowsOk, ReservationsOk, ProviderOk, TimesOk, OpenedOk, ActivationsOk, AuditOk, Evidence, Traced, Count;
    hide IsCurrent, QuietWrite, IsConfirmation, FirstTime, Grows;
    ConfirmationIsQuiet(w, w', c, key, context, entry);
    var row, token := Confirmed(w.db.rows[c], key, context), w.db.rows[c].tokenHash.value.token;
    RowFacts(w, c);
    ConfirmableRow(w.h, c, w.db.rows[c]);
    ConfirmedRowOk(w.h, w'.h, c, w.db.rows[c], key, context);
    OthersUnattested(w, w'.h, c, token);
    RowsAfterWrite(w, w', c, row);
    ReservationsAfterQuietWrite(w, w', c, row);
    ProviderFrame(w.h, w'.h);
    CurrentToken(w, c, token);
    AttestedTimes(w.h, w'.h, token);
    OpenedAfterWrite(w, w', c, row);
    ActivationsAfterQuietWrite(w, w', c, row);
    AuditGrows(w, w', entry);
  }

  lemma ConfirmShape(w: World, e: Event)
    requires e.Submit? && e.request.ConfirmRequest? && Confirm(w.db, e.key, e.request.client, e.context).1.Applied?
    requires w.db.rows[e.request.client].tokenHash.Some?
    ensures var w' := Step(w, e);
            |w'.db.audit| == |w.db.audit| + 1
            && IsConfirmation(w, w', e.request.client, e.key, e.context, w'.db.audit[|w.db.audit|])
  {
    hide CallStep, OutcomeStep, WebhookStep, ContinueStep, ActivateStep, Prepare, Revoke;
    hide Reserve;
  }

  lemma ConfirmKeepsInv(w: World, e: Event)
    requires Inv(w) && Assumed(w.h, e) && e.Submit? && e.request.ConfirmRequest?
    ensures Inv(Step(w, e))
  {
    hide RowsOk, ReservationsOk, ProviderOk, TimesOk, OpenedOk, ActivationsOk, AuditOk, Evidence, Traced, Count;
    hide CallStep, OutcomeStep, WebhookStep, ContinueStep, ActivateStep, Prepare, Revoke;
    hide Reserve, IsConfirmation;
    var w' := Step(w, e);
    var c := e.request.client;
    if !Confirm(w.db, e.key, c, e.context).1.Applied? {
      IdleStep(w, w');
    } else {
      RowFacts(w, c);
      ConfirmableRow(w.h, c, w.db.rows[c]);
      ConfirmShape(w, e);
      ConfirmationKeepsInv(w, w', c, e.key, e.context, w'.db.audit[|w.db.audit|]);
    }
  }

  lemma CurrentToken(w: World, c: ClientId, t: Token)
    requires ReservationsOk(w) && IsCurrent(w.h, c, t)
    ensures t < |w.h.reservations| && w.h.reservations[t].at < w.h.time
  {
    IssuedEarlier(w, t);
  }

  // ---------------------------------------------------------------- provider events

  lemma TokenFacts(w: World, t: Token)
    requires ReservationsOk(w) && ProviderOk(w.h) && (t in w.h.inFlight || t in w.h.pending)
    ensures t < |w.h.reservations| && w.h.reservations[t].at < w.h.time
    ensures w.h.reservations[t].key in w.h.issued && w.h.issued[w.h.reservations[t].key] == t
    ensures t in w.h.pending && w.h.pending[t].Accepted? ==>
              w.h.pending[t].message.operation == w.h.reservations[t].key && w.h.reservations[t].key in w.h.vouched
  {
    assert ReservationOk(w, t);
  }

  lemma KeyFacts(w: World, k: Key)
    requires ReservationsOk(w) && k in w.h.issued
    ensures w.h.issued[k] < |w.h.reservations| && w.h.reservations[w.h.issued[k]].key == k
    ensures w.h.reservations[w.h.issued[k]].at < w.h.time
  {
    assert ReservationOk(w, w.h.issued[k]);
  }

  lemma VouchedTimes(h: History, h': History, k: Key)
    requires TimesOk(h) && h'.time == h.time + 1
    requires k in h.issued && h.issued[k] < |h.reservations| && h.reservations[h.issued[k]].at < h.time
    requires h'.reservations == h.reservations && h'.issued == h.issued && h'.attested == h.attested
    requires h'.vouched == FirstTime(h.vouched, k, h.time)
    ensures TimesOk(h')
  {
    forall x | x in h'.vouched
      ensures x in h.issued && h.issued[x] < |h.reservations| && h.reservations[h.issued[x]].at < h'.vouched[x] < h'.time
    {
      assert x in h.vouched || (x == k && h'.vouched[x] == h.time);
    }
  }

  /** The row that holds a called operation is on the automated channel, and no other row holds its messages. */
  lemma EvidenceTarget(w: World, c: ClientId, m: MessageId, t: Token)
    requires RowsOk(w) && ReservationsOk(w)
    requires HasOperation(w.db, c, m.operation)
    requires t < |w.h.reservations| && w.h.reservations[t].key == m.operation
    ensures !ManualState(w.db.rows[c].deliveryState) && !MessageTaken(w.db, c, m)
  {
    assert ReservationOk(w, t);
    assert Traced(w.h, c, w.db.rows[c]) && Evidence(w.db.rows[c]);
    forall x | HasMessage(w.db, x, m) ensures x == c {
      assert Traced(w.h, x, w.db.rows[x]) && Evidence(w.db.rows[x]);
    }
  }

  /** Correlation finds only the row of the operation that the message belongs to, and never a conflict. */
  lemma CorrelationIsByOperation(w: World, m: MessageId, tag: Option<Key>)
    requires RowsOk(w)
    requires tag.Some? ==> tag.value == m.operation
    ensures var r := Correlate(w.db, m, tag); r.Target? ==> HasOperation(w.db, r.client, m.operation)
  {
    var r := Correlate(w.db, m, tag);
    if r.Target? {
      assert Traced(w.h, r.client, w.db.rows[r.client]);
    }
  }

  lemma EvidenceRowOk(h: History, c: ClientId, row: Invitation, state: Delivery, message: Option<MessageId>)
    requires Evidence(row) && Traced(h, c, row) && row.sendOperationId.Some?
    requires !ManualState(row.deliveryState) && !ManualState(state) && !state.AutomatedUnconfirmed?
    requires message.None? ==> state.ProviderFailed?
    requires message.Some? ==> message.value.operation == row.sendOperationId.value
    requires ProviderSaidYes(state) ==> row.sendOperationId.value in h.vouched
    ensures var row' := row.(deliveryState := state, providerMessageId := message); Evidence(row') && Traced(h, c, row')
  {
  }

  /** New provider evidence for the operation that a row currently holds. */
  lemma EvidenceKeepsInv(w: World, w': World, c: ClientId, k: Key, state: Delivery, message: Option<MessageId>)
    requires Inv(w) && HasOperation(w.db, c, k) && !ManualState(w.db.rows[c].deliveryState)
    requires !ManualState(state) && !state.AutomatedUnconfirmed?
    requires message.None? ==> state.ProviderFailed?
    requires message.Some? ==> message.value.operation == k
    requires ProviderSaidYes(state) ==> k in w'.h.vouched
    requires w'.db == Write(w.db, c, w.db.rows[c].(deliveryState := state, providerMessageId := message))
    requires w'.h == w.h.(time := w.h.time + 1, vouched := w'.h.vouched, pending := w'.h.pending)
    requires Grows(w.h, w'.h) && TimesOk(w'.h) && ProviderOk(w'.h)
    ensures Inv(w')
  {
    hide RowsOk, ReservationsOk, ProviderOk, TimesOk, OpenedOk, ActivationsOk, AuditOk, Evidence, Traced, Count;
    RowFacts(w, c);
    var row := w.db.rows[c].(deliveryState := state, providerMessageId := message);
    TracedGrows(w.h, w'.h, c, w.db.rows[c]);
    EvidenceRowOk(w'.h, c, w.db.rows[c], state, message);
    RowsAfterWrite(w, w', c, row);
    ReservationsAfterQuietWrite(w, w', c, row);
    OpenedAfterWrite(w, w', c, row);
    ActivationsAfterQuietWrite(w, w', c, row);
    AuditUnmoved(w, w');
  }

  /** Only bookkeeping of the provider dialogue changes. */
  lemma HistoryOnly(w: World, w': World)
    requires Inv(w) && w'.db == w.db && Grows(w.h, w'.h)
    requires w'.h == w.h.(time := w.h.time + 1, vouched := w'.h.vouched, pending := w'.h.pending,
                          inFlight := w'.h.inFlight, calls := w'.h.calls)
    requires TimesOk(w'.h) && ProviderOk(w'.h)
    ensures Inv(w')
  {
    hide RowsOk, ReservationsOk, ProviderOk, TimesOk, OpenedOk, ActivationsOk, AuditOk, Evidence, Traced, Count;
    RowsAfterNothing(w, w');
    ReservationsFrame(w, w');
    OpenedFrame(w, w');
    ActivationsFrame(w, w');
    AuditUnmoved(w, w');
  }

  lemma CallKeepsInv(w: World, e: Event)
    requires Inv(w) && Assumed(w.h, e) && e.CallProvider?
    ensures Inv(Step(w, e))
  {
    hide RowsOk, ReservationsOk, ProviderOk, TimesOk, OpenedOk, ActivationsOk, AuditOk, Evidence, Traced, Count;
    hide SubmitStep, OutcomeStep, WebhookStep, ContinueStep, ActivateStep, Prepare, Revoke;
    var w' := Step(w, e);
    if e.token !in w.h.inFlight {
      IdleStep(w, w');
    } else {
      TokenFacts(w, e.token);
      if e.answer.Accepted? {
        VouchedTimes(w.h, w'.h, e.answer.message.operation);
      } else {
        TimesFrame(w.h, w'.h);
      }
      CalledOnce(w.h, w'.h, e.token, e.answer);
      HistoryOnly(w, w');
    }
  }

  lemma CalledOnce(h: History, h': History, token: Token, answer: Answer)
    requires ProviderOk(h) && token in h.inFlight && Grows(h, h')
    requires answer.Accepted? ==>
               answer.message.operation == h.reservations[token].key && h.reservations[token].key in h'.vouched
    requires h'.reservations == h.reservations && h'.inFlight == h.inFlight - {token}
    requires h'.calls == h.calls + [token] && h'.pending == h.pending[token := answer]
    ensures ProviderOk(h')
  {
  }

  /** An outcome writes only to a row that holds its operation unconfirmed. */
  lemma OutcomeWrite(db: Db, c: ClientId, key: Key, answer: Answer)
    requires RecordOutcome(db, c, key, answer) != db
    ensures HasOperation(db, c, key) && db.rows[c].deliveryState.AutomatedUnconfirmed? && !answer.Ambiguous?
    ensures var state := if answer.Accepted? then AutomatedAccepted else ProviderFailed;
            var message := if answer.Accepted? then Some(answer.message) else None;
            RecordOutcome(db, c, key, answer) == Write(db, c, db.rows[c].(deliveryState := state, providerMessageId := message))
  {
  }

  lemma OutcomeKeepsInv(w: World, e: Event)
    requires Inv(w) && e.StoreOutcome?
    ensures Inv(Step(w, e))
  {
    hide RowsOk, ReservationsOk, ProviderOk, TimesOk, OpenedOk, ActivationsOk, AuditOk, Evidence, Traced, Count;
    hide SubmitStep, CallStep, WebhookStep, ContinueStep, ActivateStep, Prepare, Revoke;
    hide RecordOutcome, MessageTaken;
    var w' := Step(w, e);
    if e.token !in w.h.pending {
      IdleStep(w, w');
    } else {
      TokenFacts(w, e.token);
      var r, answer := w.h.reservations[e.token], w.h.pending[e.token];
      var c := r.request.client;
      TimesFrame(w.h, w'.h);
      ProviderFrame(w.h, w'.h);
      if w'.db == w.db {
        HistoryOnly(w, w');
      } else {
        OutcomeWrite(w.db, c, r.key, answer);
        if answer.Accepted? {
          EvidenceKeepsInv(w, w', c, r.key, AutomatedAccepted, Some(answer.message));
        } else {
          EvidenceKeepsInv(w, w', c, r.key, ProviderFailed, None);
        }
      }
    }
  }

  /** A webhook writes only to the row it correlates with. */
  lemma WebhookWrite(db: Db, message: Option<MessageId>, tag: Option<Key>, kind: Kind)
    requires Webhook(db, message, tag, kind) != db
    ensures message.Some? && !kind.OtherKind? && Correlate(db, message.value, tag).Target?
    ensures var c := Correlate(db, message.value, tag).client;
            var reconciling := kind.EmailSent? || kind.DeliveryDelayed?;
            var state := if reconciling then AutomatedAccepted else TerminalState(kind).value;
            && (reconciling ==> db.rows[c].deliveryState.AutomatedUnconfirmed?)
            && Webhook(db, message, tag, kind) == Write(db, c, db.rows[c].(deliveryState := state, providerMessageId := message))
  {
    hide Correlate, MessageTaken;
  }

  lemma VouchedGrows(h: History, h': History, k: Key)
    requires h' == h.(time := h.time + 1, vouched := FirstTime(h.vouched, k, h.time))
    ensures Grows(h, h') && k in h'.vouched
  {
  }

  lemma TimeGrows(h: History, h': History)
    requires h' == h.(time := h.time + 1)
    ensures Grows(h, h')
  {
  }

  /** A webhook leaves everything of the history but the clock and what it vouches for. */
  lemma WebhookHistory(w: World, e: Event)
    requires TimesOk(w.h) && ProviderOk(w.h) && e.WebhookEvent? && e.message.Some?
    requires var k := e.message.value.operation;
             k in w.h.issued && w.h.issued[k] < |w.h.reservations| && w.h.reservations[w.h.issued[k]].at < w.h.time
    ensures var h' := Step(w, e).h;
            && h' == w.h.(time := w.h.time + 1, vouched := h'.vouched)
            && TimesOk(h') && ProviderOk(h') && Grows(w.h, h')
            && (Vouches(e, e.message.value.operation) ==> e.message.value.operation in h'.vouched)
  {
    hide TimesOk, ProviderOk, Grows, FirstTime, Webhook;
    hide SubmitStep, CallStep, OutcomeStep, ContinueStep, ActivateStep, Prepare, Revoke;
    var h', k := Step(w, e).h, e.message.value.operation;
    if Vouches(e, k) {
      VouchedGrows(w.h, h', k);
      VouchedTimes(w.h, h', k);
    } else {
      TimeGrows(w.h, h');
      TimesFrame(w.h, h');
    }
    ProviderFrame(w.h, h');
  }

  lemma WebhookKeepsInv(w: World, e: Event)
    requires Inv(w) && Assumed(w.h, e) && e.WebhookEvent?
    ensures Inv(Step(w, e))
  {
    hide RowsOk, ReservationsOk, ProviderOk, TimesOk, OpenedOk, ActivationsOk, AuditOk, Evidence, Traced, Count;
    hide SubmitStep, CallStep, OutcomeStep, ContinueStep, ActivateStep, Prepare, Revoke;
    hide Webhook, Correlate, MessageTaken, Grows, FirstTime;
    var w' := Step(w, e);
    if e.message.None? {
      if w'.db != w.db {
        WebhookWrite(w.db, e.message, e.tag, e.kind);
      }
      TimeGrows(w.h, w'.h);
      IdleStep(w, w');
    } else {
      var m := e.message.value;
      KeyFacts(w, m.operation);
      var t := w.h.issued[m.operation];
      WebhookHistory(w, e);
      if w'.db == w.db {
        HistoryOnly(w, w');
      } else {
        WebhookWrite(w.db, e.message, e.tag, e.kind);
        CorrelationIsByOperation(w, m, e.tag);
        var c := Correlate(w.db, m, e.tag).client;
        EvidenceTarget(w, c, m, t);
        var state := if e.kind.EmailSent? || e.kind.DeliveryDelayed? then AutomatedAccepted else TerminalState(e.kind).value;
        EvidenceKeepsInv(w, w', c, m.operation, state, Some(m));
      }
    }
  }

  // ---------------------------------------------------------------- the invitee

  /** Opening keeps everything but the status and its time. */
  lemma OpenedRowOk(h: History, c: ClientId, row: Invitation, now: Instant)
    requires Evidence(row) && Traced(h, c, row) && row.status.Sent?
    ensures var row' := row.(status := Opened, openedAt := Some(now)); Evidence(row') && Traced(h, c, row')
  {
  }

  lemma ContinueWrite(db: Db, token: Token, now: Instant)
    requires Continue(db, token, now).1.Applied?
    ensures FindByToken(db, Digest(token)).Some?
    ensures var c := FindByToken(db, Digest(token)).value;
            var db' := Continue(db, token, now).0;
            && c in db.rows && db.rows[c].status.Sent? && |db'.audit| == |db.audit| + 1
            && db'.audit[|db.audit|].action == OpenedEntry
            && db' == Write(db, c, db.rows[c].(status := Opened, openedAt := Some(now))).(audit := db.audit + [db'.audit[|db.audit|]])
  {
  }

  lemma ContinueIdle(db: Db, token: Token, now: Instant)
    requires !Continue(db, token, now).1.Applied?
    ensures Continue(db, token, now).0 == db
  {
  }

  lemma ContinueKeepsInv(w: World, e: Event)
    requires Inv(w) && e.ContinueEvent?
    ensures Inv(Step(w, e))
  {
    hide RowsOk, ReservationsOk, ProviderOk, TimesOk, OpenedOk, ActivationsOk, AuditOk, Evidence, Traced, Count;
    hide SubmitStep, CallStep, OutcomeStep, WebhookStep, ActivateStep, Prepare, Revoke;
    hide Continue;
    var w' := Step(w, e);
    if !Continue(w.db, e.token, e.now).1.Applied? {
      ContinueIdle(w.db, e.token, e.now);
      IdleStep(w, w');
    } else {
      ContinueWrite(w.db, e.token, e.now);
      var c := FindByToken(w.db, Digest(e.token)).value;
      var row := w.db.rows[c].(status := Opened, openedAt := Some(e.now));
      RowFacts(w, c);
      TracedGrows(w.h, w'.h, c, w.db.rows[c]);
      OpenedRowOk(w'.h, c, w.db.rows[c], e.now);
      RowsAfterWrite(w, w', c, row);
      ReservationsAfterQuietWrite(w, w', c, row);
      ProviderFrame(w.h, w'.h);
      TimesFrame(w.h, w'.h);
      OpenedOnce(w, w', c, e.token);
      ActivationsAfterQuietWrite(w, w', c, row);
      AuditGrows(w, w', w'.db.audit[|w.db.audit|]);
    }
  }

  /** A token that leaves Sent for Opened was never opened before: no other row holds it. */
  lemma OpenedOnce(w: World, w': World, c: ClientId, token: Token)
    requires RowsOk(w) && ReservationsOk(w) && OpenedOk(w) && HasToken(w.db, c, Digest(token)) && w.db.rows[c].status.Sent?
    requires w'.h.openings == w.h.openings + [token] && w'.h.reservations == w.h.reservations
    requires c in w'.db.rows && !w'.db.rows[c].status.Sent?
    requires forall x | x in w'.db.rows && x != c :: x in w.db.rows && w'.db.rows[x] == w.db.rows[x]
    ensures OpenedOk(w')
  {
    hide Evidence, Issued;
    assert Traced(w.h, c, w.db.rows[c]);
    forall x | x in w'.db.rows && w'.db.rows[x].status.Sent? && w'.db.rows[x].tokenHash.Some?
      ensures w'.db.rows[x].tokenHash.value.token !in w'.h.openings
    {
      assert Traced(w.h, x, w.db.rows[x]);
    }
  }

  // ---------------------------------------------------------------- reservations

  /** A key that has reserved once never reserves again, however often its request is retried. */
  lemma KeyReservesOnce(w: World, key: Key, request: Request, token: Token, context: Context)
    requires ReservationsOk(w) && RowsOk(w)
    requires !request.ConfirmRequest? && (key in w.h.requests ==> w.h.requests[key] == request)
    requires key in w.h.issued
    ensures Reserve(w.db, key, request, token, context).0 == w.db
    ensures !Reserve(w.db, key, request, token, context).1.Fresh?
  {
    var t := w.h.issued[key];
    assert ReservationOk(w, t);
  }

  lemma FreshKey(w: World, e: Event)
    requires ReservationsOk(w) && RowsOk(w) && Assumed(w.h, e) && e.Submit? && !e.request.ConfirmRequest?
    requires Reserve(w.db, e.key, e.request, |w.h.reservations|, e.context).1.Fresh?
    ensures e.key !in w.h.issued
  {
    if e.key in w.h.issued {
      KeyReservesOnce(w, e.key, e.request, |w.h.reservations|, e.context);
    }
  }

  /** An earlier reservation is still accounted for after a row write that spends no less. */
  lemma ReservationStays(w: World, w': World, c: ClientId, row: Invitation, t: Token)
    requires t < |w.h.reservations| && ReservationOk(w, t) && Grows(w.h, w'.h)
    requires w.h.reservations[t].request.client == c ==> w.db.rows[c].updatedAt < w.db.clock
    requires w'.db.rows == w.db.rows[c := row.(updatedAt := w.db.clock)] && !row.status.Prepared?
    requires w.h.reservations[t].key in w'.h.issued && w'.h.issued[w.h.reservations[t].key] == t
    requires var x := w.h.reservations[t].request.client; x in w'.h.current && w.h.current[x] <= w'.h.current[x]
    ensures ReservationOk(w', t)
  {
  }

  /** What one reservation says of the keys, clients and rows. */
  lemma ReservedClient(w: World, t: Token)
    requires RowsOk(w) && ReservationsOk(w) && t < |w.h.reservations|
    ensures var r := w.h.reservations[t];
            && r.key in w.h.issued && w.h.issued[r.key] == t && ReservationOk(w, t)
            && r.request.client in w.h.current && w.h.current[r.request.client] < |w.h.reservations|
            && r.request.client in w.db.rows && w.db.rows[r.request.client].updatedAt < w.db.clock
  {
    assert ReservationOk(w, t);
  }

  lemma ReservationsAfterReserve(w: World, w': World, r: Reservation, row: Invitation)
    requires RowsOk(w) && ReservationsOk(w) && Grows(w.h, w'.h) && !r.request.ConfirmRequest?
    requires r.request.client in w.db.rows && r.key !in w.h.issued && r.at < w'.h.time
    requires r.key in w'.h.requests && w'.h.requests[r.key] == r.request
    requires r.request.ResendRequest? ==> r.request.expectedUpdatedAt < w.db.clock
    requires w'.db.rows == w.db.rows[r.request.client := row.(updatedAt := w.db.clock)] && !row.status.Prepared?
    requires w'.h.reservations == w.h.reservations + [r]
    requires w'.h.issued == w.h.issued[r.key := |w.h.reservations|]
    requires w'.h.current == w.h.current[r.request.client := |w.h.reservations|]
    ensures ReservationsOk(w')
  {
    hide RowsOk, Grows;
    var n := |w.h.reservations|;
    assert ReservationOk(w', n);
    hide ReservationOk;
    forall t: nat | t < n ensures ReservationOk(w', t) {
      ReservedClient(w, t);
      ReservationStays(w, w', r.request.client, row, t);
    }
  }

  lemma ProviderAfterReserve(h: History, h': History, r: Reservation)
    requires ProviderOk(h) && Grows(h, h') && h'.reservations == h.reservations + [r]
    requires h'.inFlight == if Automated(r) then h.inFlight + {|h.reservations|} else h.inFlight
    requires h'.calls == h.calls && h'.pending == h.pending
    ensures ProviderOk(h')
  {
    assert |h.reservations| !in h.calls && |h.reservations| !in h.inFlight;
  }

  lemma TimesAfterReserve(h: History, h': History, r: Reservation)
    requires TimesOk(h) && h.time <= h'.time && r.key !in h.issued
    requires h'.reservations == h.reservations + [r] && h'.issued == h.issued[r.key := |h.reservations|]
    requires h'.vouched == h.vouched && h'.attested == h.attested
    ensures TimesOk(h')
  {
  }

  lemma OpenedAfterReserve(w: World, w': World, c: ClientId, row: Invitation, r: Reservation)
    requires OpenedOk(w) && w'.h.openings == w.h.openings && w'.h.reservations == w.h.reservations + [r]
    requires w'.db.rows == w.db.rows[c := row.(updatedAt := w.db.clock)]
    requires row.tokenHash == Some(Digest(|w.h.reservations|))
    ensures OpenedOk(w')
  {
  }

  lemma ActivationsAfterReserve(w: World, w': World, c: ClientId, row: Invitation, r: Reservation)
    requires ActivationsOk(w) && Grows(w.h, w'.h)
    requires c in w.db.rows && !w.db.rows[c].status.Activated? && !row.status.Activated?
    requires w'.db.rows == w.db.rows[c := row.(updatedAt := w.db.clock)]
    requires w'.db.users == w.db.users && w'.db.accounts == w.db.accounts && w'.db.profiles == w.db.profiles
    requires w'.h.reservations == w.h.reservations + [r]
    requires w'.h.current == w.h.current[c := |w.h.reservations|] && w'.h.activations == w.h.activations
    ensures ActivationsOk(w')
  {
    hide ActivationOk, AccountOf, Grows;
    var acts := w.h.activations;
    forall i: nat | i < |acts| ensures ActivationOk(w', acts[i]) && AccountOf(w'.db, i, acts[i]) {
      ActivatedClient(w, acts[i]);
      ActivationStays(w, w', c, row, acts[i]);
      AccountStays(w.db, w'.db, i, acts[i]);
    }
    forall x | x in w'.db.rows && w'.db.rows[x].status.Activated?
      ensures exists i :: 0 <= i < |acts| && acts[i].client == x
    {
      assert x in w.db.rows && w.db.rows[x].status.Activated?;
    }
  }

  lemma ResendsOne(rs: seq<Reservation>, r: Reservation)
    ensures Resends(rs + [r]) == Resends(rs) + if r.request.ResendRequest? then 1 else 0
  {
    assert (rs + [r])[..|rs|] == rs;
  }

  /** What a fresh reservation leaves behind, in one place. */
  ghost predicate IsReservation(w: World, w': World, r: Reservation, email: string, entries: seq<AuditEntry>) {
    var c, token := r.request.client, |w.h.reservations|;
    && !r.request.ConfirmRequest?
    && c in w.db.rows
    && !w.db.rows[c].status.Activated?
    && r.at == w.h.time && r.context.clientEmail == Some(email)
    && (r.request.ResendRequest? ==> w.db.rows[c].updatedAt == r.request.expectedUpdatedAt)
    && w'.db == Write(w.db, c, ReservedRow(w.db.rows[c], r.key, r.request.channel, token, r.context.now, email)).(
                  audit := w.db.audit + entries)
    && |entries| <= 1
    && (entries != [] ==> entries[0].action == if r.request.ResendRequest? then Resent else SentAutomated)
    && (r.request.ResendRequest? ==> entries != [])
    && w'.h == w.h.(
         time := w.h.time + 1,
         requests := w.h.requests[r.key := r.request],
         reservations := w.h.reservations + [r],
         issued := w.h.issued[r.key := token],
         current := w.h.current[c := token],
         inFlight := if Automated(r) then w.h.inFlight + {token} else w.h.inFlight)
  }

  lemma FreshReserveShape(w: World, e: Event) returns (entries: seq<AuditEntry>)
    requires e.Submit? && !e.request.ConfirmRequest?
    requires Reserve(w.db, e.key, e.request, |w.h.reservations|, e.context).1.Fresh?
    ensures e.context.clientEmail.Some?
    ensures IsReservation(w, Step(w, e), Reservation(e.key, e.request, e.context, w.h.time), e.context.clientEmail.value, entries)
  {
    entries := Step(w, e).db.audit[|w.db.audit|..];
  }

  lemma ReservedRowOk(h: History, row: Invitation, r: Reservation, email: string, token: Token)
    requires !r.request.ConfirmRequest? && IsCurrent(h, r.request.client, token) && h.reservations[token] == r
    requires r.key in h.requests && h.requests[r.key] == r.request && Evidence(row) && !row.status.Activated?
    requires token !in h.attested && r.context.clientEmail == Some(email)
    ensures var row' := ReservedRow(row, r.key, r.request.channel, token, r.context.now, email);
            Evidence(row') && Traced(h, r.request.client, row') && !row'.status.Prepared?
  {
  }

  lemma ReservationRows(w: World, w': World, r: Reservation, email: string, entries: seq<AuditEntry>)
    requires RowsOk(w) && TimesOk(w.h) && IsReservation(w, w', r, email, entries) && Grows(w.h, w'.h)
    ensures RowsOk(w') && w.db.rows[r.request.client].updatedAt < w.db.clock
  {
    hide RowsOk, Evidence, Traced, ReservedRow, Grows;
    var c, token := r.request.client, |w.h.reservations|;
    RowFacts(w, c);
    ReservedRowOk(w'.h, w.db.rows[c], r, email, token);
    RowsAfterWrite(w, w', c, ReservedRow(w.db.rows[c], r.key, r.request.channel, token, r.context.now, email));
  }

  lemma ReservationAudit(w: World, w': World, r: Reservation, email: string, entries: seq<AuditEntry>)
    requires AuditOk(w) && IsReservation(w, w', r, email, entries)
    ensures AuditOk(w')
  {
    ResendsOne(w.h.reservations, r);
    if entries != [] {
      assert entries == [entries[0]];
      CountEntry(w.db.audit, entries[0]);
    } else {
      assert w'.db.audit == w.db.audit;
    }
  }

  lemma ReservationKeepsInv(w: World, w': World, r: Reservation, email: string, entries: seq<AuditEntry>)
    requires Inv(w) && IsReservation(w, w', r, email, entries)
    requires r.key !in w.h.issued && (r.key in w.h.requests ==> w.h.requests[r.key] == r.request)
    ensures Inv(w')
  {
    hide RowsOk, ReservationsOk, ProviderOk, TimesOk, OpenedOk, ActivationsOk, AuditOk;
    var c := r.request.client;
    var row := ReservedRow(w.db.rows[c], r.key, r.request.channel, |w.h.reservations|, r.context.now, email);
    ReservationRows(w, w', r, email, entries);
    ReservationsAfterReserve(w, w', r, row);
    ProviderAfterReserve(w.h, w'.h, r);
    TimesAfterReserve(w.h, w'.h, r);
    OpenedAfterReserve(w, w', c, row, r);
    ActivationsAfterReserve(w, w', c, row, r);
    ReservationAudit(w, w', r, email, entries);
  }

  lemma ReserveKeepsInv(w: World, e: Event)
    requires Inv(w) && Assumed(w.h, e) && e.Submit? && !e.request.ConfirmRequest?
    ensures Inv(Step(w, e))
  {
    hide RowsOk, ReservationsOk, ProviderOk, TimesOk, OpenedOk, ActivationsOk, AuditOk, IsReservation;
    if !Reserve(w.db, e.key, e.request, |w.h.reservations|, e.context).1.Fresh? {
      IdleStep(w, Step(w, e));
    } else {
      var entries := FreshReserveShape(w, e);
      FreshKey(w, e);
      ReservationKeepsInv(w, Step(w, e), Reservation(e.key, e.request, e.context, w.h.time), e.context.clientEmail.value, entries);
    }
  }

  // ---------------------------------------------------------------- activation

  lemma ReservationsAfterActivation(w: World, w': World, c: ClientId, row: Invitation)
    requires RowsOk(w) && ReservationsOk(w) && Grows(w.h, w'.h) && c in w.db.rows && row.status.Activated?
    requires w'.db.rows == w.db.rows[c := row.(updatedAt := w.db.clock)]
    requires w'.h.reservations == w.h.reservations && w'.h.issued == w.h.issued && w'.h.current == w.h.current
    ensures ReservationsOk(w')
  {
    forall t | 0 <= t < |w.h.reservations| ensures ReservationOk(w', t) {
      assert ReservationOk(w, t);
    }
  }

  /** What the row says about the address when the account is created goes back to the reservation of the token. */
  lemma VerifiedHasEvidence(w: World, c: ClientId, token: Token)
    requires RowsOk(w) && ReservationsOk(w) && TimesOk(w.h)
    requires HasToken(w.db, c, Digest(token)) && EmailVerified(w.db.rows[c])
    ensures IsCurrent(w.h, c, token)
    ensures var r := w.h.reservations[token];
      if Automated(r) then r.key in w.h.vouched && w.h.vouched[r.key] < w.h.time
      else token in w.h.attested && w.h.attested[token] < w.h.time
  {
    assert Evidence(w.db.rows[c]) && Traced(w.h, c, w.db.rows[c]);
  }

  lemma NewAccount(db: Db, db': Db, a: Activation)
    requires |db.profiles| == |db.accounts|
    requires |db'.users| == |db.users| + 1 && db'.users[|db.users|].emailVerified == a.verified
    requires db'.profiles == db.profiles + [Profile(|db.users|, a.client)]
    requires |db'.accounts| == |db.accounts| + 1 && db'.accounts[|db.accounts|].user == |db.users|
    ensures AccountOf(db', |db.profiles|, a)
  {
  }

  lemma ActivationsAfterActivation(w: World, w': World, c: ClientId, row: Invitation, a: Activation)
    requires ActivationsOk(w) && Grows(w.h, w'.h)
    requires c in w.db.rows && !w.db.rows[c].status.Activated? && row.status.Activated? && a.client == c
    requires w'.db.rows == w.db.rows[c := row.(updatedAt := w.db.clock)]
    requires w'.h.reservations == w.h.reservations && w'.h.current == w.h.current
    requires w'.h.activations == w.h.activations + [a]
    requires |w'.db.users| == |w.db.users| + 1 && w.db.users <= w'.db.users
    requires w'.db.users[|w.db.users|].emailVerified == a.verified
    requires w'.db.profiles == w.db.profiles + [Profile(|w.db.users|, c)]
    requires |w'.db.accounts| == |w.db.accounts| + 1 && w.db.accounts <= w'.db.accounts
    requires w'.db.accounts[|w.db.accounts|].user == |w.db.users|
    requires ActivationOk(w', a)
    ensures ActivationsOk(w')
  {
    hide ActivationOk, AccountOf, Grows;
    var acts, acts' := w.h.activations, w'.h.activations;
    NewAccount(w.db, w'.db, a);
    forall i: nat | i < |acts|
      ensures ActivationOk(w', acts[i]) && AccountOf(w'.db, i, acts[i]) && acts[i].client != c
    {
      ActivatedClient(w, acts[i]);
      ActivationStays(w, w', c, row, acts[i]);
      AccountStays(w.db, w'.db, i, acts[i]);
    }
    forall i: nat | i < |acts'| ensures ActivationOk(w', acts'[i]) && AccountOf(w'.db, i, acts'[i]) {
      assert i < |acts| ==> acts'[i] == acts[i];
    }
    ActivatedClients(w, w', c, row, a);
  }

  /** Every activated row has its activation. */
  lemma ActivatedClients(w: World, w': World, c: ClientId, row: Invitation, a: Activation)
    requires ActivationsOk(w) && w'.db.rows == w.db.rows[c := row.(updatedAt := w.db.clock)]
    requires w'.h.activations == w.h.activations + [a] && a.client == c
    ensures forall x | x in w'.db.rows && w'.db.rows[x].status.Activated? ::
              exists i :: 0 <= i < |w'.h.activations| && w'.h.activations[i].client == x
  {
    hide ActivationOk, AccountOf;
    var acts, acts' := w.h.activations, w'.h.activations;
    forall x | x in w'.db.rows && w'.db.rows[x].status.Activated?
      ensures exists i :: 0 <= i < |acts'| && acts'[i].client == x
    {
      if x == c {
        assert acts'[|acts|].client == c;
      } else {
        var i :| 0 <= i < |acts| && acts[i].client == x;
        assert acts'[i].client == x;
      }
    }
  }

  lemma ActivatedRowOk(h: History, c: ClientId, row: Invitation, now: Instant)
    requires Evidence(row) && Traced(h, c, row) && (row.status.Sent? || row.status.Opened?)
    ensures var row' := row.(status := Activated, activatedAt := Some(now)); Evidence(row') && Traced(h, c, row')
  {
  }

  /** What a successful activation writes, and whom it creates. */
  lemma ActivateWrite(db: Db, token: Token, now: Instant, name: string, passwordHash: string)
    requires Activate(db, token, now, name, passwordHash).1.Applied?
    ensures FindByToken(db, Digest(token)).Some?
    ensures var c := FindByToken(db, Digest(token)).value;
            var db' := Activate(db, token, now, name, passwordHash).0;
            && c in db.rows && HasToken(db, c, Digest(token)) && (db.rows[c].status.Sent? || db.rows[c].status.Opened?)
            && |db'.audit| == |db.audit| + 1 && db'.audit == db.audit + [db'.audit[|db.audit|]]
            && db'.audit[|db.audit|].action == ActivatedEntry
            && db'.rows == Write(db, c, db.rows[c].(status := Activated, activatedAt := Some(now))).rows
            && db'.clock == db.clock + 1
            && |db'.users| == |db.users| + 1 && db.users <= db'.users
            && db'.users[|db.users|].emailVerified == EmailVerified(db.rows[c])
            && db'.profiles == db.profiles + [Profile(|db.users|, c)]
            && |db'.accounts| == |db.accounts| + 1 && db.accounts <= db'.accounts
            && db'.accounts[|db.accounts|].user == |db.users|
  {
    hide EmailVerified, EmailInUse, HasProfile;
  }

  lemma ActivateIdle(db: Db, token: Token, now: Instant, name: string, passwordHash: string)
    requires !Activate(db, token, now, name, passwordHash).1.Applied?
    ensures Activate(db, token, now, name, passwordHash).0 == db
  {
  }

  /** The new activation, with what the row said of the address. */
  lemma NewActivation(w: World, w': World, c: ClientId, token: Token)
    requires RowsOk(w) && ReservationsOk(w) && TimesOk(w.h) && HasToken(w.db, c, Digest(token))
    requires c in w'.db.rows && w'.db.rows[c].status.Activated? && w'.h.time == w.h.time + 1
    requires w'.h.reservations == w.h.reservations && w'.h.current == w.h.current
    requires w'.h.vouched == w.h.vouched && w'.h.attested == w.h.attested
    ensures ActivationOk(w', Activation(c, token, EmailVerified(w.db.rows[c]), w.h.time))
  {
    hide EmailVerified, TimesOk;
    RowFacts(w, c);
    assert Traced(w.h, c, w.db.rows[c]);
    CurrentToken(w, c, token);
    if EmailVerified(w.db.rows[c]) {
      VerifiedHasEvidence(w, c, token);
    }
  }

  lemma ActivateKeepsInv(w: World, e: Event)
    requires Inv(w) && e.ActivateEvent?
    ensures Inv(Step(w, e))
  {
    hide RowsOk, ReservationsOk, ProviderOk, TimesOk, OpenedOk, ActivationsOk, AuditOk, Evidence, Traced, Count;
    hide SubmitStep, CallStep, OutcomeStep, WebhookStep, ContinueStep, Prepare, Revoke;
    hide Activate, ActivationOk, EmailVerified;
    var w' := Step(w, e);
    if !Activate(w.db, e.token, e.now, e.name, e.passwordHash).1.Applied? {
      ActivateIdle(w.db, e.token, e.now, e.name, e.passwordHash);
      IdleStep(w, w');
    } else {
      ActivateWrite(w.db, e.token, e.now, e.name, e.passwordHash);
      var c := FindByToken(w.db, Digest(e.token)).value;
      var row := w.db.rows[c].(status := Activated, activatedAt := Some(e.now));
      var a := Activation(c, e.token, EmailVerified(w.db.rows[c]), w.h.time);
      RowFacts(w, c);
      TracedGrows(w.h, w'.h, c, w.db.rows[c]);
      ActivatedRowOk(w'.h, c, w.db.rows[c], e.now);
      RowsAfterWrite(w, w', c, row);
      ReservationsAfterActivation(w, w', c, row);
      ProviderFrame(w.h, w'.h);
      TimesFrame(w.h, w'.h);
      OpenedAfterWrite(w, w', c, row);
      NewActivation(w, w', c, e.token);
      ActivationsAfterActivation(w, w', c, row, a);
      AuditGrows(w, w', w'.db.audit[|w.db.audit|]);
    }
  }

  /** Every event the environment may produce keeps every invariant. */
  lemma StepKeepsInv(w: World, e: Event)
    requires Inv(w) && Assumed(w.h, e)
    ensures Inv(Step(w, e))
  {
    hide RowsOk, ReservationsOk, ProviderOk, TimesOk, OpenedOk, ActivationsOk, AuditOk;
    match e
    case PrepareEvent(_, _, _) => PrepareKeepsInv(w, e);
    case Submit(_, request, _) =>
      if request.ConfirmRequest? {
        ConfirmKeepsInv(w, e);
      } else {
        ReserveKeepsInv(w, e);
      }
    case CallProvider(_, _) => CallKeepsInv(w, e);
    case StoreOutcome(_) => OutcomeKeepsInv(w, e);
    case RevokeEvent(_, _, _) => RevokeKeepsInv(w, e);
    case WebhookEvent(_, _, _) => WebhookKeepsInv(w, e);
    case ContinueEvent(_, _) => ContinueKeepsInv(w, e);
    case ActivateEvent(_, _, _, _) => ActivateKeepsInv(w, e);
    case OtherAccount(_) => IdleStep(w, Step(w, e));
  }

  lemma {:induction false} RunKeepsInv(w: World, events: seq<Event>)
    requires Inv(w) && Legal(w, events)
    ensures Inv(Run(w, events))
  {
    if events != [] {
      var n := |events| - 1;
      RunKeepsInv(w, events[..n]);
      StepKeepsInv(Run(w, events[..n]), events[n]);
    }
  }

  lemma StartTables()
    ensures RowsOk(Start) && OpenedOk(Start) && ActivationsOk(Start) && AuditOk(Start)
  {
  }

  lemma StartHistory()
    ensures ReservationsOk(Start) && ProviderOk(Start.h) && TimesOk(Start.h)
  {
  }

  lemma StartOk()
    ensures Inv(Start)
  {
    hide RowsOk, ReservationsOk, ProviderOk, TimesOk, OpenedOk, ActivationsOk, AuditOk;
    StartTables();
    StartHistory();
  }

  /** Every state of every run satisfies the invariants. */
  lemma ReachableOk(w: World)
    requires Reachable(w)
    ensures Inv(w)
  {
    hide RowsOk, ReservationsOk, ProviderOk, TimesOk, OpenedOk, ActivationsOk, AuditOk;
    var events :| Legal(Start, events) && Run(Start, events) == w;
    StartOk();
    RunKeepsInv(Start, events);
  }

  /** The successor of a reachable state is reachable. */
  lemma ReachableStep(w: World, e: Event)
    requires Reachable(w) && Assumed(w.h, e)
    ensures Reachable(Step(w, e))
  {
    hide Step;
    var events :| Legal(Start, events) && Run(Start, events) == w;
    assert (events + [e])[..|events|] == events;
    assert Legal(Start, events + [e]) && Run(Start, events + [e]) == Step(w, e);
  }
}
