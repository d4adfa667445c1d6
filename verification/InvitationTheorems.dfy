/** What the invitation protocol guarantees over every run, stated about rows, keys, tokens and events. */
module InvitationTheorems {
  import opened Wrappers
  import opened Sequences
  import opened Invitations
  import opened InvitationRuns
  import opened InvitationProofs

  /** Every reachable row's evidence fields agree with its status and its delivery state. */
  lemma EveryRowIsConsistent(w: World, c: ClientId)
    requires Reachable(w) && c in w.db.rows
    ensures Evidence(w.db.rows[c])
  {
    ReachableOk(w);
  }

  // ---------------------------------------------------------------- provider evidence

  predicate SameButDelivery(row: Invitation, row': Invitation) {
    row' == row.(deliveryState := row'.deliveryState, providerMessageId := row'.providerMessageId, updatedAt := row'.updatedAt)
  }

  /** The operation that a provider event is about. */
  ghost predicate About(h: History, e: Event, k: Key) {
    || (e.StoreOutcome? && e.token < |h.reservations| && h.reservations[e.token].key == k)
    || (e.WebhookEvent? && e.message.Some? && e.message.value.operation == k)
  }

  /** Evidence that may only settle a send still unconfirmed. */
  predicate OnlyReconciles(e: Event) {
    e.StoreOutcome? || (e.WebhookEvent? && (e.kind.EmailSent? || e.kind.DeliveryDelayed?))
  }

  lemma OutcomeTouches(db: Db, target: ClientId, key: Key, answer: Answer, c: ClientId)
    ensures RecordOutcome(db, target, key, answer).rows.Keys == db.rows.Keys
    ensures var rows' := RecordOutcome(db, target, key, answer).rows;
            c in db.rows && rows'[c] != db.rows[c] ==>
              && db.rows[c].sendOperationId == Some(key)
              && db.rows[c].deliveryState.AutomatedUnconfirmed?
              && SameButDelivery(db.rows[c], rows'[c])
  {
    if RecordOutcome(db, target, key, answer) != db {
      OutcomeWrite(db, target, key, answer);
      hide RecordOutcome;
    }
  }

  lemma WebhookTouches(db: Db, message: Option<MessageId>, tag: Option<Key>, kind: Kind, c: ClientId)
    ensures Webhook(db, message, tag, kind).rows.Keys == db.rows.Keys
    ensures var rows' := Webhook(db, message, tag, kind).rows;
            c in db.rows && rows'[c] != db.rows[c] ==>
              && message.Some? && Correlate(db, message.value, tag) == Target(c)
              && (kind.EmailSent? || kind.DeliveryDelayed? ==> db.rows[c].deliveryState.AutomatedUnconfirmed?)
              && SameButDelivery(db.rows[c], rows'[c]) && rows'[c].providerMessageId == message
  {
    hide Webhook, Correlate;
    if Webhook(db, message, tag, kind) != db {
      WebhookWrite(db, message, tag, kind);
    }
  }

  /**
   * A provider outcome or webhook changes a row only while the row holds the very operation the event
   * is about, and then only its delivery evidence; every other row is untouched. Outcomes and acceptance events
   * never overwrite a later state.
   */
  lemma EvidenceStaysWithItsOperation(w: World, e: Event, c: ClientId)
    requires Reachable(w) && Assumed(w.h, e) && (e.StoreOutcome? || e.WebhookEvent?)
    ensures Step(w, e).db.rows.Keys == w.db.rows.Keys
    ensures c in w.db.rows && Step(w, e).db.rows[c] != w.db.rows[c] ==>
              && w.db.rows[c].sendOperationId.Some?
              && About(w.h, e, w.db.rows[c].sendOperationId.value)
              && SameButDelivery(w.db.rows[c], Step(w, e).db.rows[c])
              && (OnlyReconciles(e) ==> w.db.rows[c].deliveryState.AutomatedUnconfirmed?)
              && (e.WebhookEvent? ==> Step(w, e).db.rows[c].providerMessageId == e.message)
  {
    hide RowsOk, ReservationsOk, ProviderOk, TimesOk, OpenedOk, ActivationsOk, AuditOk, Reachable;
    hide RecordOutcome, Webhook, Correlate, SameButDelivery, SubmitStep, CallStep, ContinueStep, ActivateStep, Prepare, Revoke;
    ReachableOk(w);
    if e.StoreOutcome? {
      if e.token in w.h.pending && e.token < |w.h.reservations| {
        var r := w.h.reservations[e.token];
        OutcomeTouches(w.db, r.request.client, r.key, w.h.pending[e.token], c);
      }
    } else {
      WebhookTouches(w.db, e.message, e.tag, e.kind, c);
      if e.message.Some? {
        CorrelationIsByOperation(w, e.message.value, e.tag);
      }
    }
  }

  /** The message id or the signed tag finds the row that holds the operation. */
  lemma CorrelationFindsTheRow(db: Db, m: MessageId, tag: Option<Key>, c: ClientId)
    requires Unique(db) && HasOperation(db, c, m.operation) && (tag.Some? ==> tag.value == m.operation)
    requires HasMessage(db, c, m) || (db.rows[c].providerMessageId.None? && tag.Some? && forall x :: !HasMessage(db, x, m))
    ensures Correlate(db, m, tag) == Target(c)
  {
  }

  lemma TerminalWrites(db: Db, m: MessageId, tag: Option<Key>, kind: Kind, c: ClientId)
    requires Correlate(db, m, tag) == Target(c) && TerminalState(kind).Some? && !MessageTaken(db, c, m)
    ensures c in db.rows && c in Webhook(db, Some(m), tag, kind).rows
    ensures var row := Webhook(db, Some(m), tag, kind).rows[c];
            row.deliveryState == TerminalState(kind).value && row.providerMessageId == Some(m)
  {
    hide Correlate, MessageTaken;
  }

  /** Among unique rows, the holder of the operation is the only one that may hold the message. */
  lemma HolderCorrelates(db: Db, m: MessageId, tag: Option<Key>, c: ClientId)
    requires Unique(db) && HasOperation(db, c, m.operation) && !MessageTaken(db, c, m) && (tag.Some? ==> tag.value == m.operation)
    requires db.rows[c].providerMessageId == Some(m) || (db.rows[c].providerMessageId.None? && tag.Some?)
    ensures Correlate(db, m, tag) == Target(c)
  {
    hide Correlate, Unique;
    if db.rows[c].providerMessageId == Some(m) {
      assert HasMessage(db, c, m);
    } else {
      forall x ensures !HasMessage(db, x, m) {
        assert x != c ==> !HasMessage(db, x, m);
      }
    }
    CorrelationFindsTheRow(db, m, tag, c);
  }

  /** A terminal webhook about the operation a row holds lands on that row, by its message id or by its signed tag. */
  lemma TerminalEvidenceLands(w: World, e: Event, c: ClientId)
    requires Reachable(w) && Assumed(w.h, e) && e.WebhookEvent? && e.message.Some? && TerminalState(e.kind).Some?
    requires HasOperation(w.db, c, e.message.value.operation)
    requires w.db.rows[c].providerMessageId == e.message || (w.db.rows[c].providerMessageId.None? && e.tag.Some?)
    ensures Step(w, e).db.rows[c].deliveryState == TerminalState(e.kind).value
    ensures Step(w, e).db.rows[c].providerMessageId == e.message
  {
    hide RowsOk, ReservationsOk, ProviderOk, TimesOk, OpenedOk, ActivationsOk, AuditOk, Correlate, Unique, MessageTaken, Reachable;
    hide Webhook, SubmitStep, CallStep, OutcomeStep, ContinueStep, ActivateStep, Prepare, Revoke;
    ReachableOk(w);
    var m := e.message.value;
    KeyFacts(w, m.operation);
    EvidenceTarget(w, c, m, w.h.issued[m.operation]);
    NoIdentifierIsShared(w);
    HolderCorrelates(w.db, m, e.tag, c);
    TerminalWrites(w.db, m, e.tag, e.kind, c);
  }

  /** No two rows ever hold the same token, send operation or provider message. */
  lemma NoIdentifierIsShared(w: World)
    requires Reachable(w)
    ensures Unique(w.db)
  {
    hide RowsOk, ReservationsOk, ProviderOk, TimesOk, OpenedOk, ActivationsOk, AuditOk;
    ReachableOk(w);
    forall c, c', d | HasToken(w.db, c, d) && HasToken(w.db, c', d) ensures c == c' {
      RowFacts(w, c);
      RowFacts(w, c');
      TokenOwner(w, d.token, c);
      TokenOwner(w, d.token, c');
    }
    forall c, c', k | HasOperation(w.db, c, k) && HasOperation(w.db, c', k) ensures c == c' {
      RowFacts(w, c);
      RowFacts(w, c');
    }
    forall c, c', m | HasMessage(w.db, c, m) && HasMessage(w.db, c', m) ensures c == c' {
      RowFacts(w, c);
      RowFacts(w, c');
    }
  }

  /** Fresh tokens and deliberate keys never meet a unique index: no staff action fails for that reason. */
  lemma NoUniqueViolation(w: World, e: Event)
    requires Reachable(w) && Assumed(w.h, e) && e.Submit?
    ensures e.request.ConfirmRequest? ==> Confirm(w.db, e.key, e.request.client, e.context).1 != Refused(UniqueViolation)
    ensures !e.request.ConfirmRequest? ==>
              Reserve(w.db, e.key, e.request, |w.h.reservations|, e.context).1 != Refused(UniqueViolation)
  {
    hide RowsOk, ProviderOk, TimesOk, OpenedOk, ActivationsOk, AuditOk;
    ReachableOk(w);
    var c, token := e.request.client, |w.h.reservations|;
    forall x | HasOperation(w.db, x, e.key) ensures x == c {
      RowFacts(w, x);
    }
    forall x | HasToken(w.db, x, Digest(token)) ensures false {
      RowFacts(w, x);
    }
  }

  // ---------------------------------------------------------------- retries and provider calls

  /** A retried send or resend, after its key has reserved, changes no table and calls no provider. */
  lemma RetryChangesNothing(w: World, e: Event)
    requires Reachable(w) && Assumed(w.h, e) && e.Submit? && !e.request.ConfirmRequest? && e.key in w.h.issued
    ensures Step(w, e).db == w.db
    ensures Step(w, e).h.inFlight == w.h.inFlight && Step(w, e).h.reservations == w.h.reservations
  {
    ReachableOk(w);
    KeyReservesOnce(w, e.key, e.request, |w.h.reservations|, e.context);
  }

  /** Over a whole run each idempotency key rotates a token at most once, on either channel. */
  lemma OneReservationPerKey(w: World, t: Token, u: Token)
    requires Reachable(w) && t < |w.h.reservations| && u < |w.h.reservations|
    requires w.h.reservations[t].key == w.h.reservations[u].key
    ensures t == u
  {
    ReachableOk(w);
    assert ReservationOk(w, t) && ReservationOk(w, u);
  }

  function AutomatedCount(rs: seq<Reservation>): nat {
    if rs == [] then 0 else AutomatedCount(rs[..|rs| - 1]) + if Automated(rs[|rs| - 1]) then 1 else 0
  }

  predicate CallsBalance(h: History) {
    |h.calls| + |h.inFlight| == AutomatedCount(h.reservations)
  }

  lemma NextTokenNotInFlight(h: History)
    requires ProviderOk(h)
    ensures |h.reservations| !in h.inFlight
  {
  }

  lemma BalanceAfterReserve(h: History, h': History, r: Reservation)
    requires CallsBalance(h) && |h.reservations| !in h.inFlight
    requires h'.reservations == h.reservations + [r] && h'.calls == h.calls
    requires h'.inFlight == if Automated(r) then h.inFlight + {|h.reservations|} else h.inFlight
    ensures CallsBalance(h')
  {
    assert h'.reservations[..|h.reservations|] == h.reservations;
  }

  lemma BalanceAfterCall(h: History, h': History, token: Token)
    requires CallsBalance(h) && token in h.inFlight
    requires h'.reservations == h.reservations && h'.calls == h.calls + [token] && h'.inFlight == h.inFlight - {token}
    ensures CallsBalance(h')
  {
  }

  lemma BalanceUnmoved(h: History, h': History)
    requires CallsBalance(h)
    requires h'.reservations == h.reservations && h'.calls == h.calls && h'.inFlight == h.inFlight
    ensures CallsBalance(h')
  {
  }

  lemma CallsStep(w: World, e: Event)
    requires ProviderOk(w.h) && CallsBalance(w.h)
    ensures CallsBalance(Step(w, e).h)
  {
    hide ProviderOk, CallsBalance;
    var h, h' := w.h, Step(w, e).h;
    NextTokenNotInFlight(h);
    if e.Submit? && h'.reservations != h.reservations {
      BalanceAfterReserve(h, h', h'.reservations[|h.reservations|]);
    } else if e.CallProvider? && e.token in h.inFlight {
      BalanceAfterCall(h, h', e.token);
    } else {
      BalanceUnmoved(h, h');
    }
  }

  lemma {:induction false} RunBalances(events: seq<Event>)
    requires Legal(Start, events)
    ensures CallsBalance(Run(Start, events).h)
  {
    hide RowsOk, ReservationsOk, ProviderOk, TimesOk, OpenedOk, ActivationsOk, AuditOk;
    hide CallsBalance, Step;
    if events == [] {
      StartBalances();
    } else {
      var n := |events| - 1;
      RunBalances(events[..n]);
      StartOk();
      RunKeepsInv(Start, events[..n]);
      CallsStep(Run(Start, events[..n]), events[n]);
    }
  }

  lemma StartBalances()
    ensures CallsBalance(Start.h)
  {
  }

  /** Every fresh automated reservation is awaiting its one provider call or has had it; nothing else calls. */
  lemma OneCallPerAutomatedReservation(w: World)
    requires Reachable(w)
    ensures |w.h.calls| + |w.h.inFlight| == AutomatedCount(w.h.reservations)
    ensures NoDuplicates(w.h.calls)
    ensures forall t | t in w.h.calls :: t < |w.h.reservations| && Automated(w.h.reservations[t])
  {
    hide RowsOk, ReservationsOk, TimesOk, OpenedOk, ActivationsOk, AuditOk, Step;
    ReachableOk(w);
    var events :| Legal(Start, events) && Run(Start, events) == w;
    RunBalances(events);
  }

  // ---------------------------------------------------------------- verified addresses

  /**
   * In world w the event says that operation k, sent with token t, was accepted or delivered: it is the answer to
   * the operation's one outstanding call, or a webhook about a call already made.
   */
  ghost predicate TellsOf(w: World, e: Event, k: Key, t: Token) {
    && Vouches(e, k)
    && (e.CallProvider? ==> e.token == t && t in w.h.inFlight)
    && (e.WebhookEvent? ==> Called(w.h, k) && w.h.issued[k] == t)
  }

  /** In world w the event is a confirmation by staff that succeeds, of client c's row while it carries token t. */
  ghost predicate Attests(w: World, e: Event, c: ClientId, t: Token) {
    && e.Submit? && e.request == ConfirmRequest(c)
    && HasToken(w.db, c, Digest(t))
    && Confirm(w.db, e.key, c, e.context).1.Applied?
  }

  ghost predicate VouchedAt(events: seq<Event>, j: nat, k: Key, t: Token) {
    j < |events| && TellsOf(Run(Start, events[..j]), events[j], k, t)
  }

  ghost predicate AttestedAt(events: seq<Event>, j: nat, c: ClientId, t: Token) {
    j < |events| && Attests(Run(Start, events[..j]), events[j], c, t)
  }

  /** Each recorded time names the event that made the record, with the effect it had. */
  ghost predicate Recorded(h: History, events: seq<Event>) {
    && h.time == |events|
    && (forall k | k in h.vouched :: k in h.issued && VouchedAt(events, h.vouched[k], k, h.issued[k]))
    && (forall t | t in h.attested ::
          t < |h.reservations| && AttestedAt(events, h.attested[t], h.reservations[t].request.client, t))
    && (forall t | 0 <= t < |h.reservations| ::
          var r := h.reservations[t];
          r.at < |events| && events[r.at] == Submit(r.key, r.request, r.context))
    && (forall i | 0 <= i < |h.activations| ::
          var a := h.activations[i];
          a.at < |events| && events[a.at].ActivateEvent? && events[a.at].token == a.token)
  }

  /** What an earlier event vouched for it still vouches for in a longer run. */
  lemma EvidenceStays(events: seq<Event>, e: Event)
    ensures forall j: nat, k: Key, t: Token | VouchedAt(events, j, k, t) :: VouchedAt(events + [e], j, k, t)
    ensures forall j: nat, c: ClientId, t: Token | AttestedAt(events, j, c, t) :: AttestedAt(events + [e], j, c, t)
  {
    hide TellsOf, Attests, Run;
    forall j: nat, k: Key, t: Token | VouchedAt(events, j, k, t) ensures VouchedAt(events + [e], j, k, t) {
      assert (events + [e])[..j] == events[..j];
    }
    forall j: nat, c: ClientId, t: Token | AttestedAt(events, j, c, t) ensures AttestedAt(events + [e], j, c, t) {
      assert (events + [e])[..j] == events[..j];
    }
  }

  /** The last event of a run has its effect on the state before it. */
  lemma LastEvidence(events: seq<Event>, e: Event)
    ensures forall k: Key, t: Token :: VouchedAt(events + [e], |events|, k, t) <==> TellsOf(Run(Start, events), e, k, t)
    ensures forall c: ClientId, t: Token :: AttestedAt(events + [e], |events|, c, t) <==> Attests(Run(Start, events), e, c, t)
  {
    hide TellsOf, Attests, Run;
    assert (events + [e])[..|events|] == events;
  }

  lemma TokenOwner(w: World, t: Token, c: ClientId)
    requires ReservationsOk(w) && IsCurrent(w.h, c, t)
    ensures w.h.reservations[t].request.client == c
  {
  }

  /** What a step that keeps the old records has to add for the new ones. */
  lemma RecordsGrow(h: History, h': History, events: seq<Event>, e: Event)
    requires Recorded(h, events) && h'.time == h.time + 1
    requires h.reservations <= h'.reservations && h.activations <= h'.activations
    requires forall k | k in h.issued && k in h.vouched :: k in h'.issued && h'.issued[k] == h.issued[k]
    requires forall k | k in h'.vouched ::
               if k in h.vouched then h'.vouched[k] == h.vouched[k]
               else k in h'.issued && VouchedAt(events + [e], h'.vouched[k], k, h'.issued[k])
    requires forall t | t in h'.attested ::
               if t in h.attested then h'.attested[t] == h.attested[t]
               else t < |h.reservations| && AttestedAt(events + [e], h'.attested[t], h.reservations[t].request.client, t)
    requires forall t | |h.reservations| <= t < |h'.reservations| ::
               var r := h'.reservations[t]; r.at == |events| && e == Submit(r.key, r.request, r.context)
    requires forall i | |h.activations| <= i < |h'.activations| ::
               var a := h'.activations[i]; a.at == |events| && e.ActivateEvent? && e.token == a.token
    ensures Recorded(h', events + [e])
  {
    hide VouchedAt, AttestedAt;
    EvidenceStays(events, e);
    forall t: nat | t < |h'.reservations|
      ensures var r := h'.reservations[t];
              r.at < |events| + 1 && (events + [e])[r.at] == Submit(r.key, r.request, r.context)
    {
      if t < |h.reservations| {
        assert h'.reservations[t] == h.reservations[t];
      }
    }
    forall i: nat | i < |h'.activations|
      ensures var a := h'.activations[i];
              a.at < |events| + 1 && (events + [e])[a.at].ActivateEvent? && (events + [e])[a.at].token == a.token
    {
      if i < |h.activations| {
        assert h'.activations[i] == h.activations[i];
      }
    }
  }

  lemma ConfirmRecorded(w: World, events: seq<Event>, e: Event)
    requires RowsOk(w) && ReservationsOk(w) && Recorded(w.h, events) && w == Run(Start, events)
    requires e.Submit? && e.request.ConfirmRequest?
    ensures Recorded(Step(w, e).h, events + [e])
  {
    hide RowsOk, ReservationsOk, Recorded, VouchedAt, AttestedAt, Run;
    var c, h' := e.request.client, Step(w, e).h;
    if h'.attested != w.h.attested {
      var token := w.db.rows[c].tokenHash.value.token;
      RowFacts(w, c);
      TokenOwner(w, token, c);
      LastEvidence(events, e);
      assert Attests(w, e, c, token);
    }
    TimeIsLength(w.h, events);
    RecordsGrow(w.h, h', events, e);
  }

  lemma TimeIsLength(h: History, events: seq<Event>)
    requires Recorded(h, events)
    ensures h.time == |events|
    ensures forall k | k in h.vouched :: k in h.issued
  {
  }

  lemma ReserveRecorded(w: World, events: seq<Event>, e: Event)
    requires RowsOk(w) && ReservationsOk(w) && Recorded(w.h, events) && Assumed(w.h, e)
    requires e.Submit? && !e.request.ConfirmRequest?
    ensures Recorded(Step(w, e).h, events + [e])
  {
    hide RowsOk, ReservationsOk, Recorded, VouchedAt, AttestedAt, Reserve;
    if Reserve(w.db, e.key, e.request, |w.h.reservations|, e.context).1.Fresh? {
      FreshKey(w, e);
    }
    TimeIsLength(w.h, events);
    RecordsGrow(w.h, Step(w, e).h, events, e);
  }

  lemma CallRecorded(w: World, events: seq<Event>, e: Event)
    requires ReservationsOk(w) && ProviderOk(w.h) && Recorded(w.h, events) && Assumed(w.h, e) && w == Run(Start, events)
    requires e.CallProvider?
    ensures Recorded(Step(w, e).h, events + [e])
  {
    hide ReservationsOk, ProviderOk, Recorded, VouchedAt, AttestedAt, Run;
    if e.token in w.h.inFlight && e.answer.Accepted? {
      TokenFacts(w, e.token);
      LastEvidence(events, e);
      assert TellsOf(w, e, e.answer.message.operation, e.token);
    }
    TimeIsLength(w.h, events);
    RecordsGrow(w.h, Step(w, e).h, events, e);
  }

  lemma WebhookRecorded(w: World, events: seq<Event>, e: Event)
    requires Recorded(w.h, events) && Assumed(w.h, e) && w == Run(Start, events) && e.WebhookEvent?
    ensures Recorded(Step(w, e).h, events + [e])
  {
    hide Recorded, VouchedAt, AttestedAt, Run, Webhook;
    if e.message.Some? && Vouches(e, e.message.value.operation) {
      LastEvidence(events, e);
      var k := e.message.value.operation;
      assert TellsOf(w, e, k, w.h.issued[k]);
    }
    TimeIsLength(w.h, events);
    RecordsGrow(w.h, Step(w, e).h, events, e);
  }

  lemma OtherRecorded(w: World, events: seq<Event>, e: Event)
    requires Recorded(w.h, events) && !e.Submit? && !e.CallProvider? && !e.WebhookEvent?
    ensures Recorded(Step(w, e).h, events + [e])
  {
    hide Recorded, VouchedAt, AttestedAt, RecordOutcome, Prepare, Revoke, Continue, Activate;
    TimeIsLength(w.h, events);
    RecordsGrow(w.h, Step(w, e).h, events, e);
  }

  lemma RecordedStep(w: World, events: seq<Event>, e: Event)
    requires Inv(w) && Recorded(w.h, events) && Assumed(w.h, e) && w == Run(Start, events)
    ensures Recorded(Step(w, e).h, events + [e])
  {
    hide RowsOk, ReservationsOk, ProviderOk, TimesOk, OpenedOk, ActivationsOk, AuditOk, Step, Recorded, Assumed, Run;
    if e.Submit? {
      if e.request.ConfirmRequest? {
        ConfirmRecorded(w, events, e);
      } else {
        ReserveRecorded(w, events, e);
      }
    } else if e.CallProvider? {
      CallRecorded(w, events, e);
    } else if e.WebhookEvent? {
      WebhookRecorded(w, events, e);
    } else {
      OtherRecorded(w, events, e);
    }
  }

  lemma {:induction false} RunIsRecorded(events: seq<Event>)
    requires Legal(Start, events)
    ensures Recorded(Run(Start, events).h, events)
  {
    hide RowsOk, ReservationsOk, ProviderOk, TimesOk, OpenedOk, ActivationsOk, AuditOk, Step;
    if events != [] {
      hide Recorded;
      var n := |events| - 1;
      RunIsRecorded(events[..n]);
      StartOk();
      RunKeepsInv(Start, events[..n]);
      RecordedStep(Run(Start, events[..n]), events[..n], events[n]);
      assert events[..n] + [events[n]] == events;
    }
  }

  /**
   * Event j vouches with effect for the reservation that issued the token: the provider accepted or delivered its
   * operation, or staff confirmed its client's link while the row carried this token.
   */
  ghost predicate Backs(events: seq<Event>, j: nat, r: Reservation, t: Token) {
    if Automated(r) then VouchedAt(events, j, r.key, t) else AttestedAt(events, j, r.request.client, t)
  }

  /** In the history of a run, what backs a verified activation lies between its reservation and itself. */
  lemma VerifiedActivation(w: World, events: seq<Event>, a: Activation) returns (j: nat)
    requires RowsOk(w) && ReservationsOk(w) && TimesOk(w.h) && Recorded(w.h, events)
    requires ActivationOk(w, a) && a.verified && a.at < |events|
    ensures var r := w.h.reservations[a.token];
            && r.request.client == a.client
            && (forall t | a.token < t < |w.h.reservations| :: w.h.reservations[t].request.client != a.client)
            && r.at < j < a.at < |events|
            && Backs(events, j, r, a.token)
  {
    hide VouchedAt, AttestedAt;
    var r := w.h.reservations[a.token];
    forall t | a.token < t < |w.h.reservations| ensures w.h.reservations[t].request.client != a.client {
      assert ReservationOk(w, t);
    }
    assert ReservationOk(w, a.token);
    j := if Automated(r) then w.h.vouched[r.key] else w.h.attested[a.token];
  }

  lemma ActivationFacts(w: World, i: nat)
    requires ActivationsOk(w) && i < |w.h.activations|
    ensures ActivationOk(w, w.h.activations[i])
  {
  }

  lemma RecordedFacts(h: History, events: seq<Event>, i: nat)
    requires Recorded(h, events) && i < |h.activations| && h.activations[i].token < |h.reservations|
    ensures var a, r := h.activations[i], h.reservations[h.activations[i].token];
            && a.at < |events| && events[a.at].ActivateEvent? && events[a.at].token == a.token
            && r.at < |events| && events[r.at] == Submit(r.key, r.request, r.context)
  {
  }

  /**
   * If activation marks an address as verified, the reservation that issued the presented token was the
   * client's last, and between it and the activation lies an event that vouches for that reservation itself.
   */
  lemma VerifiedUserHasItsOwnEvidence(events: seq<Event>, i: nat) returns (j: nat)
    requires Legal(Start, events)
    requires i < |Run(Start, events).h.activations| && Run(Start, events).h.activations[i].verified
    ensures var h := Run(Start, events).h;
            var a := h.activations[i];
            && a.token < |h.reservations|
            && var r := h.reservations[a.token];
            && r.request.client == a.client
            && (forall t | a.token < t < |h.reservations| :: h.reservations[t].request.client != a.client)
            && r.at < j < a.at < |events|
            && events[r.at] == Submit(r.key, r.request, r.context)
            && Backs(events, j, r, a.token)
            && events[a.at].ActivateEvent? && events[a.at].token == a.token
  {
    hide RowsOk, ReservationsOk, ProviderOk, TimesOk, OpenedOk, ActivationsOk, AuditOk, Step, Recorded;
    StartOk();
    RunKeepsInv(Start, events);
    RunIsRecorded(events);
    var w := Run(Start, events);
    ActivationFacts(w, i);
    RecordedFacts(w.h, events, i);
    j := VerifiedActivation(w, events, w.h.activations[i]);
  }

  // ---------------------------------------------------------------- tokens and accounts

  const SOMEBODY := Context(0, 0, Some("a@b.c"), true)

  predicate CarriesLive(rows: map<ClientId, Invitation>, c: ClientId, t: Token) {
    c in rows && rows[c].tokenHash == Some(Digest(t)) && (rows[c].status.Sent? || rows[c].status.Opened?)
  }

  /** Some row through which the token could still open or activate. */
  ghost predicate Live(db: Db, t: Token) {
    exists c :: CarriesLive(db.rows, c, t)
  }

  lemma SuccessNeedsLiveToken(db: Db, t: Token, now: Instant, name: string, passwordHash: string)
    ensures Continue(db, t, now).1 != Refused(NotEligible) ==> Live(db, t)
    ensures Activate(db, t, now, name, passwordHash).1 != Refused(NotEligible) ==> Live(db, t)
  {
    var found := FindByToken(db, Digest(t));
    if found.Some? && Eligible(db.rows[found.value], now) {
      assert CarriesLive(db.rows, found.value, t);
    }
  }

  /** A submission issues no token but the next one. */
  lemma LiveAfterReserve(db: Db, key: Key, request: Request, token: Token, context: Context, c: ClientId, t: Token)
    requires !request.ConfirmRequest? && t < token
    requires CarriesLive(Reserve(db, key, request, token, context).0.rows, c, t)
    ensures CarriesLive(db.rows, c, t)
  {
    hide Sendable, IsStale, TokenTaken, OperationTaken;
  }

  lemma LiveAfterConfirm(db: Db, key: Key, target: ClientId, context: Context, c: ClientId, t: Token)
    requires CarriesLive(Confirm(db, key, target, context).0.rows, c, t)
    ensures CarriesLive(db.rows, c, t)
  {
    hide OperationTaken;
  }

  lemma LiveAfterStaff(
      db: Db, target: ClientId, clientExists: bool, staff: StaffId, reason: string, context: Context, c: ClientId, t: Token)
    ensures CarriesLive(Prepare(db, target, clientExists, staff).0.rows, c, t) ==> CarriesLive(db.rows, c, t)
    ensures CarriesLive(Revoke(db, target, reason, context).0.rows, c, t) ==> CarriesLive(db.rows, c, t)
  {
  }

  lemma LiveAfterInvitee(db: Db, token: Token, now: Instant, name: string, passwordHash: string, c: ClientId, t: Token)
    ensures CarriesLive(Continue(db, token, now).0.rows, c, t) ==> CarriesLive(db.rows, c, t)
    ensures CarriesLive(Activate(db, token, now, name, passwordHash).0.rows, c, t) ==> CarriesLive(db.rows, c, t)
  {
    hide EmailVerified, EmailInUse, HasProfile;
  }

  lemma LiveRowWasLive(w: World, e: Event, c: ClientId, t: Token)
    requires t < |w.h.reservations| && CarriesLive(Step(w, e).db.rows, c, t)
    ensures CarriesLive(w.db.rows, c, t)
  {
    hide Prepare, Reserve, Confirm, Revoke, RecordOutcome, Webhook, Correlate, Continue, Activate, EmailVerified;
    match e
    case PrepareEvent(x, clientExists, staff) => LiveAfterStaff(w.db, x, clientExists, staff, "", SOMEBODY, c, t);
    case RevokeEvent(x, reason, context) => LiveAfterStaff(w.db, x, false, 0, reason, context, c, t);
    case Submit(key, request, context) =>
      if request.ConfirmRequest? {
        LiveAfterConfirm(w.db, key, request.client, context, c, t);
      } else {
        LiveAfterReserve(w.db, key, request, |w.h.reservations|, context, c, t);
      }
    case CallProvider(_, _) =>
    case StoreOutcome(_) => EvidenceSpares(w, e, c);
    case WebhookEvent(_, _, _) => EvidenceSpares(w, e, c);
    case ContinueEvent(token, now) => LiveAfterInvitee(w.db, token, now, "", "", c, t);
    case ActivateEvent(token, now, name, hash) => LiveAfterInvitee(w.db, token, now, name, hash, c, t);
    case OtherAccount(_) =>
  }

  /** Provider evidence leaves all but the delivery columns of a row. */
  lemma EvidenceSpares(w: World, e: Event, c: ClientId)
    requires e.StoreOutcome? || e.WebhookEvent?
    ensures Step(w, e).db.rows.Keys == w.db.rows.Keys
    ensures c in w.db.rows ==> SameButDelivery(w.db.rows[c], Step(w, e).db.rows[c])
  {
    hide RecordOutcome, Webhook, Correlate, SubmitStep, CallStep, ContinueStep, ActivateStep, Prepare, Revoke;
    if e.StoreOutcome? {
      if e.token in w.h.pending && e.token < |w.h.reservations| {
        var r := w.h.reservations[e.token];
        OutcomeTouches(w.db, r.request.client, r.key, w.h.pending[e.token], c);
      }
    } else {
      WebhookTouches(w.db, e.message, e.tag, e.kind, c);
    }
  }

  /** An issued token that is live after an event was live before it. */
  lemma LiveTokenWasLive(w: World, e: Event, t: Token)
    requires t < |w.h.reservations| && Live(Step(w, e).db, t)
    ensures Live(w.db, t)
  {
    hide Step;
    var c :| CarriesLive(Step(w, e).db.rows, c, t);
    LiveRowWasLive(w, e, c, t);
  }

  lemma IssuedStays(w: World, e: Event)
    ensures |w.h.reservations| <= |Step(w, e).h.reservations|
  {
  }

  /** A rotated, revoked or used token never succeeds again, whatever happens later. */
  lemma {:induction false} DeadTokenNeverSucceeds(w: World, later: seq<Event>, t: Token, now: Instant, name: string, hash: string)
    requires t < |w.h.reservations| && !Live(w.db, t)
    ensures t < |Run(w, later).h.reservations| && !Live(Run(w, later).db, t)
    ensures Continue(Run(w, later).db, t, now).1 == Refused(NotEligible)
    ensures Activate(Run(w, later).db, t, now, name, hash).1 == Refused(NotEligible)
  {
    hide Step, Live;
    if later != [] {
      var n := |later| - 1;
      IssuedStays(Run(w, later[..n]), later[n]);
      DeadTokenNeverSucceeds(w, later[..n], t, now, name, hash);
      if Live(Run(w, later).db, t) {
        LiveTokenWasLive(Run(w, later[..n]), later[n], t);
      }
    }
    SuccessNeedsLiveToken(Run(w, later).db, t, now, name, hash);
  }

  /** Tokens die by rotation, by revocation and by use: only a client's last token on a live row is alive. */
  lemma OnlyCurrentTokensLive(w: World, t: Token)
    requires Reachable(w) && t < |w.h.reservations|
    ensures var c := w.h.reservations[t].request.client;
            Live(w.db, t) <==>
            && IsCurrent(w.h, c, t) && c in w.db.rows
            && (w.db.rows[c].status.Sent? || w.db.rows[c].status.Opened?)
  {
    ReachableOk(w);
    var c := w.h.reservations[t].request.client;
    assert ReservationOk(w, t);
    RowFacts(w, c);
    if IsCurrent(w.h, c, t) && (w.db.rows[c].status.Sent? || w.db.rows[c].status.Opened?) {
      assert CarriesLive(w.db.rows, c, t);
    }
    forall x | CarriesLive(w.db.rows, x, t) ensures x == c && IsCurrent(w.h, c, t) {
      RowFacts(w, x);
    }
  }

  lemma ReserveSparesActivated(db: Db, key: Key, request: Request, token: Token, context: Context, c: ClientId)
    requires !request.ConfirmRequest? && c in db.rows && db.rows[c].status.Activated?
    ensures c in Reserve(db, key, request, token, context).0.rows && Reserve(db, key, request, token, context).0.rows[c] == db.rows[c]
  {
    hide IsStale, TokenTaken, OperationTaken, ReservedRow;
  }

  lemma ConfirmSparesActivated(db: Db, key: Key, target: ClientId, context: Context, c: ClientId)
    requires c in db.rows && db.rows[c].status.Activated?
    ensures c in Confirm(db, key, target, context).0.rows && Confirm(db, key, target, context).0.rows[c] == db.rows[c]
  {
    hide OperationTaken;
  }

  lemma SubmitSparesActivated(w: World, e: Event, c: ClientId)
    requires e.Submit? && c in w.db.rows && w.db.rows[c].status.Activated?
    ensures c in Step(w, e).db.rows && Step(w, e).db.rows[c] == w.db.rows[c]
  {
    hide Reserve, Confirm, CallStep, OutcomeStep, WebhookStep, ContinueStep, ActivateStep, Prepare, Revoke;
    if e.request.ConfirmRequest? {
      ConfirmSparesActivated(w.db, e.key, e.request.client, e.context, c);
    } else {
      ReserveSparesActivated(w.db, e.key, e.request, |w.h.reservations|, e.context, c);
    }
  }

  lemma InviteeSparesActivated(db: Db, token: Token, now: Instant, name: string, passwordHash: string, c: ClientId)
    requires c in db.rows && db.rows[c].status.Activated?
    ensures c in Continue(db, token, now).0.rows && Continue(db, token, now).0.rows[c] == db.rows[c]
    ensures c in Activate(db, token, now, name, passwordHash).0.rows
            && Activate(db, token, now, name, passwordHash).0.rows[c] == db.rows[c]
  {
    hide EmailVerified, EmailInUse, HasProfile;
  }

  lemma StaffSparesActivated(db: Db, target: ClientId, clientExists: bool, staff: StaffId, reason: string, context: Context, c: ClientId)
    requires c in db.rows && db.rows[c].status.Activated?
    ensures c in Prepare(db, target, clientExists, staff).0.rows && Prepare(db, target, clientExists, staff).0.rows[c] == db.rows[c]
    ensures c in Revoke(db, target, reason, context).0.rows && Revoke(db, target, reason, context).0.rows[c] == db.rows[c]
  {
  }

  /** An activated row keeps its status, token, destination and activation time under every event. */
  lemma ActivationIsAbsorbing(w: World, e: Event, c: ClientId)
    requires c in w.db.rows && w.db.rows[c].status.Activated?
    ensures c in Step(w, e).db.rows
    ensures SameButDelivery(w.db.rows[c], Step(w, e).db.rows[c])
  {
    hide SubmitStep, OutcomeStep, WebhookStep, Prepare, Revoke, Continue, Activate, EmailVerified;
    match e
    case PrepareEvent(x, clientExists, staff) => StaffSparesActivated(w.db, x, clientExists, staff, "", SOMEBODY, c);
    case RevokeEvent(x, reason, context) => StaffSparesActivated(w.db, x, false, 0, reason, context, c);
    case Submit(_, _, _) => SubmitSparesActivated(w, e, c);
    case CallProvider(_, _) =>
    case StoreOutcome(_) => EvidenceSpares(w, e, c);
    case WebhookEvent(_, _, _) => EvidenceSpares(w, e, c);
    case ContinueEvent(token, now) => InviteeSparesActivated(w.db, token, now, "", "", c);
    case ActivateEvent(token, now, name, hash) => InviteeSparesActivated(w.db, token, now, name, hash, c);
    case OtherAccount(_) =>
  }

  /** Whatever happens after an activation, the row keeps its status, token, destination and times. */
  lemma {:induction false} ActivatedForever(w: World, later: seq<Event>, c: ClientId)
    requires c in w.db.rows && w.db.rows[c].status.Activated?
    ensures c in Run(w, later).db.rows && SameButDelivery(w.db.rows[c], Run(w, later).db.rows[c])
  {
    hide Step;
    if later != [] {
      var n := |later| - 1;
      ActivatedForever(w, later[..n], c);
      ActivationIsAbsorbing(Run(w, later[..n]), later[n], c);
    }
  }

  /** A token opens or activates only up to seven days after the reservation that issued it. */
  lemma TokensExpire(w: World, t: Token, now: Instant, name: string, passwordHash: string)
    requires Reachable(w)
    ensures !Continue(w.db, t, now).1.Refused? || !Activate(w.db, t, now, name, passwordHash).1.Refused? ==>
              t < |w.h.reservations| && now <= w.h.reservations[t].context.now + SEVEN_DAYS
  {
    hide ReservationsOk, ProviderOk, TimesOk, OpenedOk, ActivationsOk, AuditOk;
    ReachableOk(w);
    var found := FindByToken(w.db, Digest(t));
    if found.Some? {
      RowFacts(w, found.value);
    }
  }

  /** A client is activated exactly when it has a profile, and it has at most one. */
  lemma OneAccountPerClient(w: World, c: ClientId)
    requires Reachable(w)
    ensures |w.db.profiles| == |w.db.accounts|
    ensures forall i, j | 0 <= i < j < |w.db.profiles| :: w.db.profiles[i].client != w.db.profiles[j].client
    ensures (c in w.db.rows && w.db.rows[c].status.Activated?) <==> HasProfile(w.db.profiles, c)
  {
    hide RowsOk, ReservationsOk, ProviderOk, TimesOk, OpenedOk, AuditOk;
    ReachableOk(w);
    var acts := w.h.activations;
    forall i | 0 <= i < |acts| ensures w.db.profiles[i].client == acts[i].client && ActivationOk(w, acts[i]) {
      assert AccountOf(w.db, i, acts[i]);
    }
  }

  /** The OPENED entries are one per opened token, the ACTIVATED entries one per profile, the RESENT entries one per resend. */
  lemma AuditCountsTransitions(w: World)
    requires Reachable(w)
    ensures Count(w.db.audit, OpenedEntry) == |w.h.openings| && NoDuplicates(w.h.openings)
    ensures Count(w.db.audit, ActivatedEntry) == |w.db.profiles|
    ensures Count(w.db.audit, Resent) == Resends(w.h.reservations)
  {
    hide RowsOk, ReservationsOk, ProviderOk, TimesOk;
    ReachableOk(w);
  }

  // ---------------------------------------------------------------- the replayed confirmation

  /**
   * Repeating a confirmation is a no-op exactly when the row is not an unattested manual link: the key of
   * the repeated request is never compared with anything on this row.
   */
  lemma RepeatedConfirmIsNoOpIff(w: World, e: Event)
    requires Reachable(w) && Assumed(w.h, e) && e.Submit? && e.request.ConfirmRequest?
    ensures var c := e.request.client;
            Step(w, e).db == w.db <==>
            !(c in w.db.rows && w.db.rows[c].status.Sent? && w.db.rows[c].deliveryMethod.None?)
  {
    hide ProviderOk, TimesOk, OpenedOk, ActivationsOk, AuditOk;
    ReachableOk(w);
    NoUniqueViolation(w, e);
    if e.request.client in w.db.rows {
      RowFacts(w, e.request.client);
    }
  }

  lemma PreparedWorld() returns (w: World)
    ensures Reachable(w) && w == World(
      Write(Start.db, 0, NewInvitation).(audit := w.db.audit), Start.h.(time := 1))
  {
    assert Legal(Start, []) && Run(Start, []) == Start;
    w := Step(Start, PrepareEvent(0, true, 0));
    ReachableStep(Start, PrepareEvent(0, true, 0));
  }

  /** One reservation of the client's row, whose request was not used before. */
  lemma ReserveOnce(w: World, key: Key, request: Request) returns (w': World)
    requires Reachable(w) && !request.ConfirmRequest? && key !in w.h.requests && request.client in w.db.rows
    requires Sendable(request, w.db.rows[request.client].status) && !IsStale(request, w.db.rows[request.client])
    requires w.db.rows[request.client].sendOperationId != Some(key)
    ensures Reachable(w') && w' == Step(w, Submit(key, request, SOMEBODY))
    ensures var row := ReservedRow(w.db.rows[request.client], key, request.channel, |w.h.reservations|, 0, "a@b.c");
            w'.db.rows == w.db.rows[request.client := row.(updatedAt := w.db.clock)] && w'.db.clock == w.db.clock + 1
    ensures var r := Reservation(key, request, SOMEBODY, w.h.time);
            w'.h == w.h.(
              time := w.h.time + 1,
              requests := w.h.requests[key := request],
              reservations := w.h.reservations + [r],
              issued := w.h.issued[key := |w.h.reservations|],
              current := w.h.current[request.client := |w.h.reservations|],
              inFlight := if Automated(r) then w.h.inFlight + {|w.h.reservations|} else w.h.inFlight)
  {
    hide Inv, Reachable, Sendable, IsStale, Reserve, Confirm;
    hide CallStep, OutcomeStep, WebhookStep, ContinueStep, ActivateStep, Prepare, Revoke;
    var e := Submit(key, request, SOMEBODY);
    w' := Step(w, e);
    NoUniqueViolation(w, e);
    ReserveSucceeds(w.db, key, request, |w.h.reservations|);
    ReachableStep(w, e);
  }

  /** With its guards passed and no index in the way a reservation succeeds. */
  lemma ReserveSucceeds(db: Db, key: Key, request: Request, token: Token)
    requires !request.ConfirmRequest? && request.client in db.rows
    requires Sendable(request, db.rows[request.client].status) && !IsStale(request, db.rows[request.client])
    requires db.rows[request.client].sendOperationId != Some(key)
    requires Reserve(db, key, request, token, SOMEBODY).1 != Refused(UniqueViolation)
    ensures var (db', outcome) := Reserve(db, key, request, token, SOMEBODY);
            var row := ReservedRow(db.rows[request.client], key, request.channel, token, 0, "a@b.c");
            && outcome.Fresh? && db'.clock == db.clock + 1
            && db'.rows == db.rows[request.client := row.(updatedAt := db.clock)]
  {
    hide Sendable, IsStale, TokenTaken, OperationTaken, ReservedRow;
  }

  lemma ConfirmOnce(w: World, key: Key, c: ClientId) returns (w': World)
    requires Reachable(w) && (key in w.h.requests ==> w.h.requests[key] == ConfirmRequest(c))
    requires c in w.db.rows && w.db.rows[c].status.Sent? && w.db.rows[c].deliveryMethod.None?
    ensures w' == Step(w, Submit(key, ConfirmRequest(c), SOMEBODY))
    ensures w'.db.rows == w.db.rows[c := Confirmed(w.db.rows[c], key, SOMEBODY).(updatedAt := w.db.clock)]
    ensures w'.db.clock == w.db.clock + 1
    ensures w.db.rows[c].tokenHash.Some?
    ensures w'.h == w.h.(
              time := w.h.time + 1,
              requests := w.h.requests[key := ConfirmRequest(c)],
              attested := FirstTime(w.h.attested, w.db.rows[c].tokenHash.value.token, w.h.time))
  {
    hide ReservationsOk, ProviderOk, TimesOk, OpenedOk, ActivationsOk, AuditOk, Reachable, Evidence, OperationTaken;
    hide CallStep, OutcomeStep, WebhookStep, ContinueStep, ActivateStep, Prepare, Revoke, Reserve;
    ReachableOk(w);
    var e := Submit(key, ConfirmRequest(c), SOMEBODY);
    w' := Step(w, e);
    RowFacts(w, c);
    NoUniqueViolation(w, e);
  }

  /**
   * Not every repeat is harmless: after a manual link was confirmed and reissued, a delayed retry of the
   * old confirmation, same key and same request, attests the newer link that nobody confirmed.
   */
  lemma DelayedConfirmAttestsNewerLink() returns (w: World, e: Event)
    ensures Reachable(w) && Assumed(w.h, e)
    ensures e.Submit? && e.request.ConfirmRequest? && e.key in w.h.requests && w.h.requests[e.key] == e.request
    ensures IsCurrent(w.h, e.request.client, 1) && 1 !in w.h.attested && 0 in w.h.attested
    ensures 1 in Step(w, e).h.attested
    ensures Step(w, e).db.rows[e.request.client].deliveryState.ManuallyConfirmed?
  {
    hide Inv, Step, Reachable;
    var w1 := PreparedWorld();
    var w2 := ReserveOnce(w1, 1, SendRequest(0, ManualEmail));
    ReachableOk(w2);
    var w3 := ConfirmOnce(w2, 2, 0);
    ReachableStep(w2, Submit(2, ConfirmRequest(0), SOMEBODY));
    w := ReserveOnce(w3, 3, ResendRequest(0, ManualEmail, Some(2), w3.db.rows[0].updatedAt));
    e := Submit(2, ConfirmRequest(0), SOMEBODY);
    ReachableOk(w);
    var w5 := ConfirmOnce(w, 2, 0);
  }
}
