/**
 * Interleaved runs of the invitation protocol. Each event is one transaction of one actor, or the
 * provider call that sits between two of them; the history records what no table keeps.
 */
module InvitationRuns {
  import opened Wrappers
  import opened Sequences
  import opened Invitations
  import Contact

  /** The event number `at` reserved a send: token number t was issued by reservation t. */
  datatype Reservation = Reservation(key: Key, request: Request, context: Context, at: nat)

  datatype Activation = Activation(client: ClientId, token: Token, verified: bool, at: nat)

  datatype History = History(
    time: nat,                      // events so far
    requests: map<Key, Request>,    // the deliberate action behind each idempotency key
    reservations: seq<Reservation>,
    issued: map<Key, Token>,        // the token last issued under each key
    current: map<ClientId, Token>,  // the last token issued to each client
    inFlight: set<Token>,           // automated reservations whose provider call is still to be made
    calls: seq<Token>,              // provider calls, in order
    pending: map<Token, Answer>,    // answers not recorded yet
    vouched: map<Key, nat>,         // when the provider first accepted or delivered an operation
    attested: map<Token, nat>,      // when staff first confirmed the link that carries a token
    openings: seq<Token>,
    activations: seq<Activation>
  )

  datatype World = World(db: Db, h: History)

  datatype Event =
    | PrepareEvent(client: ClientId, clientExists: bool, staff: StaffId)
    | Submit(key: Key, request: Request, context: Context)
    | CallProvider(token: Token, answer: Answer)
    | StoreOutcome(token: Token)
    | RevokeEvent(client: ClientId, reason: string, context: Context)
    | WebhookEvent(message: Option<MessageId>, tag: Option<Key>, kind: Kind)
    | ContinueEvent(token: Token, now: Instant)
    | ActivateEvent(token: Token, now: Instant, name: string, passwordHash: string)
    | OtherAccount(user: User)

  const Start := World(
    Db(map[], [], [], [], [], 0),
    History(0, map[], [], map[], map[], {}, [], map[], map[], map[], [], []))

  predicate Automated(r: Reservation) {
    !r.request.ConfirmRequest? && r.request.channel.AutomatedEmail?
  }

  function FirstTime<K>(times: map<K, nat>, k: K, now: nat): map<K, nat> {
    if k in times then times else times[k := now]
  }

  /** Provider events that say an operation was accepted or delivered. */
  predicate Vouches(e: Event, k: Key) {
    || (e.CallProvider? && e.answer.Accepted? && e.answer.message.operation == k)
    || (e.WebhookEvent? && e.message.Some? && e.message.value.operation == k
        && (e.kind.EmailSent? || e.kind.DeliveryDelayed? || e.kind.EmailDelivered?))
  }

  ghost function SubmitStep(w: World, key: Key, request: Request, context: Context): World {
    var h := w.h.(requests := w.h.requests[key := request]);
    if request.ConfirmRequest? then
      var (db, outcome) := Confirm(w.db, key, request.client, context);
      if outcome.Applied? && w.db.rows[request.client].tokenHash.Some? then
        var token := w.db.rows[request.client].tokenHash.value.token;
        World(db, h.(attested := FirstTime(h.attested, token, h.time)))
      else World(db, h)
    else
      var token := |h.reservations|;
      var (db, outcome) := Reserve(w.db, key, request, token, context);
      if outcome.Fresh? then
        World(db, h.(
          reservations := h.reservations + [Reservation(key, request, context, h.time)],
          issued := h.issued[key := token],
          current := h.current[request.client := token],
          inFlight := if request.channel.AutomatedEmail? then h.inFlight + {token} else h.inFlight))
      else World(db, h)
  }

  function CallStep(w: World, token: Token, answer: Answer): World {
    var h := w.h;
    if token !in h.inFlight then w
    else
      World(w.db, h.(
        inFlight := h.inFlight - {token},
        calls := h.calls + [token],
        pending := h.pending[token := answer],
        vouched := if answer.Accepted? then FirstTime(h.vouched, answer.message.operation, h.time) else h.vouched))
  }

  ghost function OutcomeStep(w: World, token: Token): World {
    if token !in w.h.pending || token >= |w.h.reservations| then w
    else
      var r := w.h.reservations[token];
      World(RecordOutcome(w.db, r.request.client, r.key, w.h.pending[token]), w.h.(pending := w.h.pending - {token}))
  }

  ghost function WebhookStep(w: World, e: Event): World
    requires e.WebhookEvent?
  {
    var db := Webhook(w.db, e.message, e.tag, e.kind);
    if e.message.Some? && Vouches(e, e.message.value.operation) then
      World(db, w.h.(vouched := FirstTime(w.h.vouched, e.message.value.operation, w.h.time)))
    else World(db, w.h)
  }

  ghost function ContinueStep(w: World, token: Token, now: Instant): World {
    var (db, outcome) := Continue(w.db, token, now);
    World(db, if outcome.Applied? then w.h.(openings := w.h.openings + [token]) else w.h)
  }

  ghost function ActivateStep(w: World, e: Event): World
    requires e.ActivateEvent?
  {
    var (db, outcome) := Activate(w.db, e.token, e.now, e.name, e.passwordHash);
    if outcome.Applied? then
      var c := FindByToken(w.db, Digest(e.token)).value;
      World(db, w.h.(activations := w.h.activations + [Activation(c, e.token, EmailVerified(w.db.rows[c]), w.h.time)]))
    else World(db, w.h)
  }

  ghost function Effect(w: World, e: Event): World {
    match e
    case PrepareEvent(c, clientExists, staff) => w.(db := Prepare(w.db, c, clientExists, staff).0)
    case Submit(key, request, context) => SubmitStep(w, key, request, context)
    case CallProvider(token, answer) => CallStep(w, token, answer)
    case StoreOutcome(token) => OutcomeStep(w, token)
    case RevokeEvent(c, reason, context) => w.(db := Revoke(w.db, c, reason, context).0)
    case WebhookEvent(_, _, _) => WebhookStep(w, e)
    case ContinueEvent(token, now) => ContinueStep(w, token, now)
    case ActivateEvent(_, _, _, _) => ActivateStep(w, e)
    case OtherAccount(user) => w.(db := w.db.(users := w.db.users + [user]))
  }

  ghost function Step(w: World, e: Event): World {
    var w' := Effect(w, e);
    w'.(h := w'.h.(time := w.h.time + 1))
  }

  predicate Called(h: History, k: Key) {
    k in h.issued && h.issued[k] in h.calls
  }

  /**
   * What the environment guarantees: one UUID per deliberate action, message ids issued for the
   * operation of the call, and webhooks only about calls that were made, carrying that call's tag.
   */
  ghost predicate Assumed(h: History, e: Event) {
    match e
    case Submit(key, request, _) => key in h.requests ==> h.requests[key] == request
    case CallProvider(t, Accepted(m)) => t in h.inFlight && t < |h.reservations| ==> m.operation == h.reservations[t].key
    case WebhookEvent(Some(m), tag, _) => Called(h, m.operation) && (tag.Some? ==> tag.value == m.operation)
    case _ => true
  }

  ghost function Run(w: World, events: seq<Event>): World {
    if events == [] then w else Step(Run(w, events[..|events| - 1]), events[|events| - 1])
  }

  ghost predicate Legal(w: World, events: seq<Event>) {
    events == [] ||
    (Legal(w, events[..|events| - 1]) && Assumed(Run(w, events[..|events| - 1]).h, events[|events| - 1]))
  }

  /** A state that some run the environment allows ends in. */
  ghost predicate Reachable(w: World) {
    exists events :: Legal(Start, events) && Run(Start, events) == w
  }

  // ---------------------------------------------------------------- invariants

  predicate ProviderSaidYes(state: Delivery) {
    state.AutomatedAccepted? || state.ProviderDelivered?
  }

  predicate ManualState(state: Delivery) {
    state.NotAttempted? || state.ManuallyConfirmed?
  }

  /** The evidence a row carries is consistent with its status and its delivery state. */
  predicate Evidence(row: Invitation) {
    && !row.status.Expired?
    && (row.tokenHash.None? <==> row.status.Prepared? || row.status.Revoked?)
    && (row.expiresAt.None? <==> row.tokenHash.None?)
    && (row.destinationEmail.None? <==> row.tokenHash.None?)
    && (row.revokedAt.Some? <==> row.status.Revoked?)
    && (row.activatedAt.Some? <==> row.status.Activated?)
    && (row.status.Opened? ==> row.openedAt.Some?)
    && (row.status.Prepared? ==> row.deliveryState.NotAttempted? && row.sentAt.None?)
    && (row.sendOperationId.None? <==> row.deliveryState.NotAttempted?)
    && (row.deliveryMethod.None? <==> row.deliveryState.NotAttempted?)
    && (row.deliveryMethod == Some(ManualEmail) <==> row.deliveryState.ManuallyConfirmed?)
    && (row.deliveryConfirmedAt.Some? <==> row.deliveryState.ManuallyConfirmed?)
    && (row.deliveryConfirmedBy.Some? <==> row.deliveryState.ManuallyConfirmed?)
    && (ManualState(row.deliveryState) || row.deliveryState.AutomatedUnconfirmed? ==> row.providerMessageId.None?)
    && (row.providerMessageId.None? ==>
          ManualState(row.deliveryState) || row.deliveryState.AutomatedUnconfirmed? || row.deliveryState.ProviderFailed?)
  }

  predicate IsCurrent(h: History, c: ClientId, t: Token) {
    c in h.current && h.current[c] == t && t < |h.reservations|
  }

  /** The address, the sending time and the expiry of a row with a token are those of the reservation that issued it. */
  predicate Issued(r: Reservation, row: Invitation) {
    && r.context.clientEmail.Some?
    && row.destinationEmail == Some(Contact.NormalizeEmail(r.context.clientEmail.value))
    && row.sentAt == Some(r.context.now)
    && row.expiresAt == Some(r.context.now + SEVEN_DAYS)
  }

  /** Everything a row says traces back to the client's own last reservation. */
  predicate Traced(h: History, c: ClientId, row: Invitation) {
    && (row.tokenHash.Some? ==>
          IsCurrent(h, c, row.tokenHash.value.token) && Issued(h.reservations[row.tokenHash.value.token], row))
    && (!row.deliveryState.NotAttempted? ==> c in h.current)
    && (c in h.current ==>
          && h.current[c] < |h.reservations|
          && !row.status.Prepared?
          && var r := h.reservations[h.current[c]];
             (Automated(r) <==> !ManualState(row.deliveryState)) && (Automated(r) ==> row.sendOperationId == Some(r.key)))
    && (c in h.current ==> (row.deliveryState.ManuallyConfirmed? <==> h.current[c] in h.attested))
    && (row.sendOperationId.Some? ==>
          && row.sendOperationId.value in h.requests
          && h.requests[row.sendOperationId.value].client == c
          && (row.deliveryState.ManuallyConfirmed? <==> h.requests[row.sendOperationId.value].ConfirmRequest?))
    && (row.providerMessageId.Some? ==> row.sendOperationId == Some(row.providerMessageId.value.operation))
    && (ProviderSaidYes(row.deliveryState) ==> row.sendOperationId.Some? && row.sendOperationId.value in h.vouched)
  }

  ghost predicate RowsOk(w: World) {
    && (forall c | c in w.db.rows :: Evidence(w.db.rows[c]) && Traced(w.h, c, w.db.rows[c]))
    && (forall c | c in w.db.rows :: w.db.rows[c].updatedAt < w.db.clock)
    && (forall c | c in w.h.current :: c in w.db.rows)
  }

  /** A request that has had its effect cannot have it again. */
  predicate Spent(db: Db, request: Request) {
    && !request.ConfirmRequest?
    && request.client in db.rows
    && (request.SendRequest? ==> !db.rows[request.client].status.Prepared?)
    && (request.ResendRequest? ==> db.rows[request.client].updatedAt > request.expectedUpdatedAt)
  }

  /** Token t came from one request that has had its effect, under a key that issued nothing else. */
  predicate ReservationOk(w: World, t: Token)
    requires t < |w.h.reservations|
  {
    var r := w.h.reservations[t];
    && r.key in w.h.requests && w.h.requests[r.key] == r.request
    && r.key in w.h.issued && w.h.issued[r.key] == t
    && r.at < w.h.time
    && Spent(w.db, r.request)
    && r.request.client in w.h.current && t <= w.h.current[r.request.client]
  }

  ghost predicate ReservationsOk(w: World) {
    var rs := w.h.reservations;
    && (forall t | 0 <= t < |rs| :: ReservationOk(w, t))
    && (forall k | k in w.h.issued :: w.h.issued[k] < |rs| && rs[w.h.issued[k]].key == k)
    && (forall c | c in w.h.current :: w.h.current[c] < |rs| && rs[w.h.current[c]].request.client == c)
  }

  ghost predicate ProviderOk(h: History) {
    && NoDuplicates(h.calls)
    && (forall t | 0 <= t < |h.reservations| :: Automated(h.reservations[t]) <==> t in h.inFlight || t in h.calls)
    && (forall t | t in h.inFlight :: t < |h.reservations| && t !in h.calls)
    && (forall t | t in h.calls :: t < |h.reservations|)
    && (forall t | t in h.pending ::
          && t in h.calls
          && (h.pending[t].Accepted? ==>
                h.pending[t].message.operation == h.reservations[t].key && h.reservations[t].key in h.vouched))
  }

  /** Evidence about an operation or a token is later than the reservation it is about. */
  predicate TimesOk(h: History) {
    && (forall k | k in h.vouched ::
          k in h.issued && h.issued[k] < |h.reservations| && h.reservations[h.issued[k]].at < h.vouched[k] < h.time)
    && (forall t | t in h.attested :: t < |h.reservations| && h.reservations[t].at < h.attested[t] < h.time)
  }

  ghost predicate OpenedOk(w: World) {
    && NoDuplicates(w.h.openings)
    && (forall t | t in w.h.openings :: t < |w.h.reservations|)
    && (forall c | c in w.db.rows && w.db.rows[c].status.Sent? ::
          w.db.rows[c].tokenHash.Some? ==> w.db.rows[c].tokenHash.value.token !in w.h.openings)
  }

  /** An activation used its client's last token, and what it recorded about the address was already in evidence. */
  predicate ActivationOk(w: World, a: Activation) {
    && a.at < w.h.time
    && IsCurrent(w.h, a.client, a.token)
    && a.client in w.db.rows
    && w.db.rows[a.client].status.Activated?
    && var r := w.h.reservations[a.token];
       && r.at < a.at
       && (a.verified && Automated(r) ==> r.key in w.h.vouched && w.h.vouched[r.key] < a.at)
       && (a.verified && !Automated(r) ==> a.token in w.h.attested && w.h.attested[a.token] < a.at)
  }

  /** The i-th activation owns the i-th profile and account, of one user. */
  predicate AccountOf(db: Db, i: nat, a: Activation)
    requires i < |db.profiles| == |db.accounts|
  {
    && db.profiles[i].client == a.client
    && db.profiles[i].user == db.accounts[i].user < |db.users|
    && db.users[db.profiles[i].user].emailVerified == a.verified
  }

  ghost predicate ActivationsOk(w: World) {
    var acts := w.h.activations;
    && (forall i | 0 <= i < |acts| :: ActivationOk(w, acts[i]))
    && (forall i, j | 0 <= i < j < |acts| :: acts[i].client != acts[j].client)
    && (forall c | c in w.db.rows && w.db.rows[c].status.Activated? :: exists i :: 0 <= i < |acts| && acts[i].client == c)
    && |w.db.profiles| == |w.db.accounts| == |acts|
    && (forall i | 0 <= i < |acts| :: AccountOf(w.db, i, acts[i]))
  }

  function Count(audit: seq<AuditEntry>, action: Action): nat {
    if audit == [] then 0
    else Count(audit[..|audit| - 1], action) + if audit[|audit| - 1].action == action then 1 else 0
  }

  function Resends(rs: seq<Reservation>): nat {
    if rs == [] then 0 else Resends(rs[..|rs| - 1]) + if rs[|rs| - 1].request.ResendRequest? then 1 else 0
  }

  predicate AuditOk(w: World) {
    && Count(w.db.audit, OpenedEntry) == |w.h.openings|
    && Count(w.db.audit, ActivatedEntry) == |w.h.activations|
    && Count(w.db.audit, Resent) == Resends(w.h.reservations)
  }

  ghost predicate Inv(w: World) {
    RowsOk(w) && ReservationsOk(w) && ProviderOk(w.h) && TimesOk(w.h) && OpenedOk(w) && ActivationsOk(w) && AuditOk(w)
  }
}
