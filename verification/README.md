# Heritage travel office: invitations, ledger, exports, leads, rate limits

A model, in Dafny 4.11, of the parts of the Heritage web application whose promises run over whole histories,
with proofs of those promises. Each serializable transaction, or single conditional update, is assumed to be one
atomic step.
Every method of the model's classes updates its tables in place and is proved against a specification function
on table states; the theorems are about those functions, over single steps and over runs of any length.

| part | files |
|---|---|
| portal invitations and activation | `Invitations` (rows and transactions), `Portal` (the same in place), `InvitationRuns` (events, history, invariants), `InvitationProofs`, `InvitationTheorems`, `InvitationAnswers` (when each transaction succeeds and what it then writes) |
| finance ledger | `Calculations`, `PlanStructure`, `Books` (tables and operations), `Ledger` (the same in place), `BooksProofs`, `BooksTheorems`, `BooksAnswers` |
| finance exports | `ExportJoin`, `ExportBatch`, `ExportRows`, `ExportCsv`, `ExportDates`, `Calendar`, `ExportService`, `LedgerExport` |
| leads, clients, assignments, bookings | `Leads`, `LeadOffice`, `LeadTheorems`, `LeadAnswers`, `Assignments`, `Bookings`, `Paging`, `Contact` |
| activation rate limit | `RateLimit` |
| shared | `Transactions` (how often a step is retried), `Wrappers`, `Sequences`, `Text` |

**Invitations.** One row a client. Staff prepare, send, resend, confirm and revoke; the provider is called between
two transactions and may answer ambiguously; webhooks arrive late, twice or never; the invitee continues and
activates. A run is any interleaving of these events. The environment is assumed to use one idempotency UUID for one
deliberate action, to issue message ids for the operation of the call, and to send signed webhooks only about calls
that were made, with that call's tag. Tokens are fresh because each reservation numbers its own; the digest is
injective; each row write takes a later `updatedAt`.

**Ledger.** Amounts are centavos. Bookings, plans, installments, payments, refunds, allocations and the key columns
are tables; balances are sums over them. The invariants hold in every state the operations can reach, so no export
of such a state meets a failing integrity check.

**Exports.** Tables are sets of rows and a query may answer in any order its ORDER BY allows. The batch reader's
in-memory join is proved to give the nested read's record; shaped rows fit their header; the encoded file is read
back by a reader of section 2 of RFC 4180.

## Where the code and its comments differ

The model follows the code.

- `apps/web/src/features/payments/export-schemas.ts:93` says accepted dates sort chronologically as text. The calendar
  check alone also accepts a signed six-digit year with a month, such as `+010000-01`, and those do not.
  `ExportDates.TextOrderIsChronologicalIff` gives the exact condition, `ExportDates.BackwardRangeAccepted` a range
  that passes both rules and runs backwards, `ExportDates.BackwardRangesSelectNothing` what such ranges select. Ranges
  select what their texts enclose exactly when they do not run from a plus sign to a plain date
  (`ExportDates.ManilaRangeIsDatesIff`, `ExportDates.DateRangeIsDatesIff`), and their days are counted right exactly
  when both ends are plain (`ExportDates.InclusiveDaysAreCountedIff`). Due dates are safe: their schema also demands
  the four-digit form (`ExportDates.DueDatesSortChronologically`).
- `apps/web/src/features/invitations/service.ts:454` calls a repeated manual confirmation unconditionally safe. A
  delayed retry after a manual reissue attests the newer link (`InvitationTheorems.DelayedConfirmAttestsNewerLink`);
  `InvitationTheorems.RepeatedConfirmIsNoOpIff` says exactly when a repeat is harmless.
- `apps/web/src/features/leads/service.ts:341` reads a lead outside the transaction that writes it, so overlapping
  edits can clear both contacts or change a converted lead (`LeadTheorems.OverlappingEditsClearBothContacts`,
  `LeadTheorems.LateEditReachesConvertedLead`). `LeadTheorems.ContactIsLostIff` and
  `LeadTheorems.LockedColumnsChangeIff` say exactly when; runs whose edits do not overlap another edit or the
  conversion of their lead keep both rules (`LeadTheorems.SerialEditsKeepTheRules`).
- `apps/web/src/features/activation/rate-limit.ts:35` says a row is never deleted while it can still count. That holds
  on a clock that never runs backwards (`RateLimit.NonDecreasingIsSteady`); a request behind a cleanup can be admitted
  beyond the limit (`RateLimit.LateRunExceedsTheLimit`). `RateLimit.AdmitsMinOfArrivalsAndLimitIff` says exactly when
  the limit is kept.
- Normalising a phone number twice is neutral exactly when its digits do not begin 0000 or number 12 or 13
  (`Contact.PhoneIdempotentIff`, `Contact.FourZerosShrinkTwice`).

## Model

| member | source | states |
|---|---|---|
| Portal.Portal.Prepare | apps/web/src/features/invitations/service.ts:82-126 | Creates the one invitation row of a client; a repeat on a prepared row changes nothing, any other existing row or a missing client is refused; whole new state given |
| Portal.Portal.Reserve | apps/web/src/features/invitations/service.ts:160-313 | The seven guards in order, then one write that rotates the token and resets every piece of delivery evidence, with the audit rule of send and resend; unique indexes kept |
| Portal.Portal.Confirm | apps/web/src/features/invitations/service.ts:465-513 | Attests the current manual link once; refused unless the row is a sent, unattested manual link |
| Portal.Portal.Revoke | apps/web/src/features/invitations/service.ts:516-555 | Clears the token triple and keeps the delivery fields; a second revocation changes nothing, an activated row is refused |
| Portal.Portal.RecordOutcome | apps/web/src/features/invitations/repository.ts:272-287 | Stores the provider answer only while the row still holds that operation unconfirmed |
| Portal.Portal.StoreEvidence | apps/web/src/features/invitations/repository.ts:296-345 | Writes a delivery state with its message id unless another row holds the message; nothing else of the row changes |
| Portal.Portal.Correlate | apps/web/src/features/invitations/service.ts:598-623 | The row found by message id, else by the signed tag; a conflict when the two disagree or the row already has another message |
| Portal.Portal.Webhook | apps/web/src/features/invitations/service.ts:652-697 | Acceptance events settle only unconfirmed rows, terminal events always apply, everything else is ignored |
| Portal.Portal.Continue | apps/web/src/features/activation/service.ts:73-109 | Opens an eligible sent row once, audited anonymously; an opened row is a no-op, anything else is refused |
| Portal.Portal.Activate | apps/web/src/features/activation/service.ts:134-209 | User, account, profile, row status and audit entry together, or nothing |
| InvitationTheorems.EveryRowIsConsistent | apps/web/prisma/migrations/20260824084337_portal_invitation_delivery_evidence/migration.sql:42-102 | In every run each row has its token fields exactly when it is neither prepared nor revoked, and its revocation, confirmation, operation and message fields exactly as its status and delivery state require |
| InvitationTheorems.EvidenceStaysWithItsOperation | apps/web/src/features/invitations/service.ts:598-697 | A provider outcome or webhook changes a row only while the row holds the operation the event is about, only in its delivery fields, and never over a later state |
| InvitationTheorems.TerminalEvidenceLands | apps/web/src/features/invitations/service.ts:675-691 | A terminal event about the operation a row holds does reach that row, by message id or by tag |
| InvitationProofs.CorrelationIsByOperation | apps/web/src/features/invitations/service.ts:598-623 | Correlation only ever finds the row that holds the operation the message belongs to |
| InvitationProofs.EvidenceTarget | apps/web/src/features/invitations/repository.ts:173-223 | A row that holds a called operation is on the automated channel and no other row holds a message of that operation |
| InvitationTheorems.NoIdentifierIsShared | apps/web/src/features/invitations/repository.ts:68-99 | No two rows of a run share a token digest, a send operation or a provider message id |
| InvitationTheorems.NoUniqueViolation | apps/web/src/features/invitations/service.ts:211-297 | With fresh tokens and one key per deliberate action no send, resend or confirmation ever meets a unique index |
| InvitationTheorems.RetryChangesNothing | apps/web/src/features/invitations/service.ts:211-236 | Once a key has reserved, repeating its request changes no table and starts no provider call, on either channel |
| InvitationTheorems.OneReservationPerKey | apps/web/src/features/invitations/service.ts:211-297 | Over a whole run each idempotency key rotates a token at most once |
| InvitationTheorems.OneCallPerAutomatedReservation | apps/web/src/features/invitations/service.ts:339-449 | Provider calls made plus calls outstanding equal the fresh automated reservations; no reservation is called twice and no manual one at all |
| InvitationTheorems.VerifiedUserHasItsOwnEvidence | apps/web/src/features/activation/service.ts:39-50 | A user is created verified only if, strictly between the reservation of the presented token and the activation, the outstanding call of that operation was answered with acceptance, a webhook about that made call reported it sent or delivered, or a confirmation succeeded on the row carrying that token; the reservation is the last of its client |
| InvitationTheorems.DeadTokenNeverSucceeds | apps/web/src/features/activation/service.ts:22-27 | A token no live row carries never opens or activates anything again, whatever follows |
| InvitationTheorems.OnlyCurrentTokensLive | apps/web/src/features/invitations/repository.ts:379-439 | A token is live exactly while it is the last one issued to its client and that row is sent or opened; rotation, revocation and use kill it |
| InvitationTheorems.TokensExpire | apps/web/src/features/invitations/token.ts:44-50 | A token works only up to seven days after the reservation that issued it |
| InvitationTheorems.ActivatedForever | apps/web/src/features/invitations/repository.ts:422-439 | Every later run leaves an activated row activated, with its token, destination and times; only late delivery evidence may change |
| InvitationTheorems.OneAccountPerClient | apps/web/src/features/activation/repository.ts:39-118 | A client has at most one profile and account, and has one exactly when its invitation is activated |
| InvitationTheorems.AuditCountsTransitions | apps/web/src/features/activation/service.ts:80-109 | OPENED entries equal the openings, at most one a token; ACTIVATED entries equal the profiles; RESENT entries equal the resends |
| InvitationTheorems.RepeatedConfirmIsNoOpIff | apps/web/src/features/invitations/service.ts:451-489 | A confirmation leaves everything as it was exactly when the row is not an unattested sent manual link; the key of the request plays no part |
| InvitationTheorems.DelayedConfirmAttestsNewerLink | apps/web/src/features/invitations/service.ts:451-464 | A concrete run in which a delayed retry of an old confirmation attests a newer link that nobody confirmed, against the comment that a repeat is unconditionally safe |
| InvitationProofs.StepKeepsInv | apps/web/src/features/invitations/service.ts:82-697 | Every event of staff, provider, webhook or invitee keeps all invariants above |
| InvitationProofs.KeyReservesOnce | apps/web/src/features/invitations/service.ts:228-262 | A request whose key has reserved cannot pass the guards again: its status or its expected row version is spent |
| InvitationAnswers.ReservationIsIssuedIff | apps/web/src/features/invitations/service.ts:160-297 | In every reachable world a link is issued exactly when delivery is enabled or the channel manual, the client has an e-mail address and its row is prepared, or for a resend sent, opened or revoked with the expected operation and version; otherwise nothing is written |
| InvitationAnswers.ReservationRefusals | apps/web/src/features/invitations/service.ts:160-262 | In every reachable world each refusal of a send or resend is given for a reason that holds, and never for a unique index |
| InvitationAnswers.IssuedLinkWrites | apps/web/src/features/invitations/repository.ts:173-223 | The row an issued link leaves, column by column, and its audit entry |
| InvitationAnswers.TokensGoWhereReserved | apps/web/src/features/invitations/service.ts:264-275 | In every run a row with a token shows the normalised address read by the reservation that issued that token, and its sending and expiry times |
| InvitationAnswers.ConfirmationWrites | apps/web/src/features/invitations/service.ts:465-513 | A confirmation succeeds exactly on a sent row without delivery method; what it then writes |
| InvitationAnswers.RevocationWrites | apps/web/src/features/invitations/service.ts:516-555 | A revocation succeeds exactly on a row neither revoked nor activated; what it then writes |
| InvitationAnswers.PreparationWrites | apps/web/src/features/invitations/service.ts:82-126 | A row is prepared exactly for an existing client without one, empty but for its version, with its entry |
| InvitationAnswers.WebhookWrites | apps/web/src/features/invitations/service.ts:652-697 | Which event gives which state, and to which row: exactly the holder of its operation, found by message or by tag, unless the event comes too late or reports nothing |
| InvitationAnswers.OutcomeWrites | apps/web/src/features/invitations/repository.ts:272-287 | A stored provider answer settles the row of its call exactly while that row is unconfirmed, as accepted with its message or failed without one |
| InvitationAnswers.ContinueWrites | apps/web/src/features/activation/service.ts:73-109 | Continuing opens exactly the sent row of a token that is its client's last, within a week of its issue |
| InvitationAnswers.ActivationCreates | apps/web/src/features/activation/service.ts:134-209 | Activation succeeds exactly with such a token on a sent or opened row whose address is not empty and no user has; the user created has the name given and the address of the reservation, verified exactly when an automated send is accepted or delivered or the manual link attested, and the account has the hash given |
| Ledger.Ledger.SetFinancials | apps/web/src/features/payments/service.ts:121-187 | Total and currency together, only while no non-withdrawn plan and no payment exists; a change needs a reason |
| Ledger.Ledger.Propose | apps/web/src/features/payments/service.ts:465-545 | One proposed plan with its installments, on an open booking with financials and no active plan, structure rules first |
| Ledger.Ledger.Approve | apps/web/src/features/payments/service.ts:561-640 | Only a proposed plan whose installments sum to the booking total; approving twice changes nothing |
| Ledger.Ledger.Withdraw | apps/web/src/features/payments/service.ts:663-737 | Only a proposed plan without allocations, in any booking status |
| Ledger.Ledger.Record | apps/web/src/features/payments/service.ts:759-830 | Replay by key first, then one pending payment and its initial history row |
| Ledger.Ledger.Confirm | apps/web/src/features/payments/service.ts:839-905 | Replay or conflict by key, then pending to confirmed on an open booking |
| Ledger.Ledger.Reverse | apps/web/src/features/payments/service.ts:915-988 | Only a confirmed payment without refunds |
| Ledger.Ledger.Refund | apps/web/src/features/payments/service.ts:1011-1160 | Refund row and, when it completes the payment, the status change, within the payment, the linked allocation and the unallocated credit |
| Ledger.Ledger.Allocate | apps/web/src/features/payments/service.ts:1303-1410 | An allocation to an approved installment of the same booking, within the contribution and within the installment |
| Ledger.Ledger.ReverseAllocation | apps/web/src/features/payments/service.ts:1420-1489 | One reversal of an allocation that has no refund |
| BooksProofs.LedgerStaysConsistent | apps/web/src/features/payments/service.ts:121-1489 | In every state of every run: refunds within each payment and deciding its status, allocations within contributions and installments, allocations only to approved plans of the same booking, one active plan a booking |
| BooksProofs.AcceptedRefund | apps/web/src/features/payments/service.ts:1036-1110 | What the guards of an accepted refund establish, and that it completes the payment exactly when the refunds reach the amount |
| BooksProofs.RefundMovesNets | apps/web/src/features/payments/service.ts:1082-1103 | A linked refund lowers its own payment's net allocation by exactly its amount; an unlinked one lowers none |
| BooksProofs.RawIsNet | apps/web/src/features/payments/repository.ts:808-833 | The payment-side sum that ignores status is the net active allocation of any contributing payment |
| BooksTheorems.CreditIsUnallocated | apps/web/src/features/payments/calculations.ts:31-117 | A booking's net paid is the sum of its payments' contributions and its unapplied credit is the sum of what those payments show unallocated |
| BooksTheorems.SameAllocatedTotal | apps/web/src/features/payments/calculations.ts:62-117 | Net active allocation of a booking summed by installment equals the same summed by payment |
| BooksTheorems.ExportChecksNeverFire | apps/web/src/features/payments/export-rows.ts:118-178 | For every reachable ledger the five derived columns are not negative, refunds are within amounts and every needed currency is set |
| BooksTheorems.RefundedKeepsNoAllocation | apps/web/src/features/payments/service.ts:1082-1103 | A fully refunded payment keeps nothing allocated on any of its allocations |
| BooksTheorems.PlanLaws | apps/web/src/features/payments/repository.ts:112-138 | At most one non-withdrawn plan a booking, approved plans add up to the booking total, plans that are not approved carry no allocation |
| BooksTheorems.DecidedForever | apps/web/src/features/payments/repository.ts:357-422 | In every later state a plan keeps its booking, its installments and their total, and an approved or withdrawn one is unchanged |
| BooksTheorems.ApprovedForever | apps/web/src/features/payments/repository.ts:112-138 | An approved plan stays approved and keeps adding up to its booking's total in all later states, because of the financial lock |
| BooksTheorems.CancelledBookingStaysClosed | apps/web/src/features/payments/service.ts:65-69 | As long as a cancelled booking is not reopened, any run leaves its financials, adds no plan, payment or allocation to it, and approves or confirms nothing: plans are at most withdrawn, payments at most refunded or reversed, allocations at most reversed |
| BooksTheorems.CancelledBookingOnlyRefunds | apps/web/src/features/payments/service.ts:65-69 | As long as a cancelled booking is not reopened, the amount paid on it never rises |
| BooksTheorems.AllocationNeverMeetsCorruptRefunds | apps/web/src/features/payments/service.ts:1261-1286 | The stored-refunds backstop of allocation is never reached |
| BooksTheorems.RetryChangesNothing | apps/web/src/features/payments/service.ts:276-411 | A keyed operation that succeeded once is answered without any write whenever it is repeated later |
| BooksTheorems.DoneStays | apps/web/src/features/payments/service.ts:276-411 | A key table never loses or rewrites the record a replay compares with |
| BooksAnswers.SetFinancialsAnswers | apps/web/src/features/payments/service.ts:121-187 | Applied exactly on an open booking with only withdrawn plans, no payment, a change to make and a reason when it replaces a total; what it writes |
| BooksAnswers.ProposeAnswers | apps/web/src/features/payments/service.ts:465-545 | Applied exactly for distinct numbers with at most one deposit, numbered 1, on an open booking with financials and only withdrawn plans; what it adds |
| BooksAnswers.ApproveAnswers | apps/web/src/features/payments/service.ts:561-640 | Applied exactly for a proposed plan of an open booking whose installments add up to the total |
| BooksAnswers.WithdrawAnswers | apps/web/src/features/payments/service.ts:663-737 | In a consistent ledger every proposed plan can be withdrawn, and nothing else can |
| BooksAnswers.RecordAnswers | apps/web/src/features/payments/service.ts:759-830 | Applied exactly for a new key on an open booking; the pending payment and key record it adds |
| BooksAnswers.ConfirmAnswers | apps/web/src/features/payments/service.ts:839-905 | Applied exactly for a new key and a pending payment of an open booking |
| BooksAnswers.ReverseAnswers | apps/web/src/features/payments/service.ts:915-988 | Applied exactly for a new key and a confirmed payment that no refund row names |
| BooksAnswers.RefundAnswers | apps/web/src/features/payments/service.ts:1011-1160 | Applied exactly for a new key when, with the refund row added, the confirmed payment's refunds fit its amount, the named allocation's fit the allocation, and what the payment allocates fits what is left; exactly that row is added and the payment is refunded exactly when nothing is left |
| BooksAnswers.UntouchedPaymentRefundsWhole | apps/web/src/features/payments/service.ts:1080-1103 | A confirmed payment without refunds or live allocations can be refunded whole, and is then refunded |
| BooksAnswers.AllocateAnswers | apps/web/src/features/payments/service.ts:1303-1410 | Applied exactly for a new key, a confirmed payment of an open booking and an installment of that booking's approved plan when, with the row added, the payment's net allocation fits its contribution and the installment's fits its amount |
| BooksAnswers.ReverseAllocationAnswers | apps/web/src/features/payments/service.ts:1420-1489 | Applied exactly for a live allocation no refund went through; only its flag changes |
| BooksAnswers.SetFinancialsRefusals | apps/web/src/features/payments/service.ts:121-187 | Each refusal holds: unknown or cancelled booking, an active plan or a payment, a replaced total without reason; unchanged only on the stored pair |
| BooksAnswers.ProposeRefusals | apps/web/src/features/payments/service.ts:465-545 | Each refusal holds: structure, unknown or cancelled booking, missing financials or an active plan |
| BooksAnswers.ApproveRefusals | apps/web/src/features/payments/service.ts:561-640 | Each refusal holds: unknown plan, cancelled booking, withdrawn plan or another total; unchanged only when approved |
| BooksAnswers.WithdrawRefusals | apps/web/src/features/payments/service.ts:663-737 | A conflict only for an approved plan, unchanged only for a withdrawn one |
| BooksAnswers.RecordRefusals | apps/web/src/features/payments/service.ts:759-830 | A used key is unchanged only when it recorded the same payment and conflicts only when it did not; each other refusal holds |
| BooksAnswers.ConfirmRefusals | apps/web/src/features/payments/service.ts:839-905 | A used key is unchanged only for this confirmation and conflicts only for another change; each other refusal holds |
| BooksAnswers.ReverseRefusals | apps/web/src/features/payments/service.ts:915-988 | A used key is unchanged only for this reversal and conflicts only for another change; a transition is refused only when not confirmed or refunded from |
| BooksAnswers.RefundRefusals | apps/web/src/features/payments/service.ts:1011-1110 | Each refusal holds; too much is refused only when with the row added the payment's refunds, the allocation's, or what stays allocated would go too far |
| BooksAnswers.AllocateRefusals | apps/web/src/features/payments/service.ts:1303-1410 | Each refusal holds, and the stored-refunds failure is never among them |
| BooksAnswers.ReverseAllocationRefusals | apps/web/src/features/payments/service.ts:1420-1489 | Each refusal holds: another allocation under the key, an unknown one, a reversed one or one with a refund |
| Calculations.ComputeNextPaymentDue | apps/web/src/features/payments/calculations.ts:135-144 | The loop computes the running earliest outstanding due date |
| Calculations.NextDueIsEarliest | apps/web/src/features/payments/calculations.ts:128-144 | The next due date is the earliest with something outstanding; there is none exactly when nothing is |
| Calculations.NextDueAmountIsPositive | apps/web/src/features/payments/calculations.ts:146-166 | The next amount exists exactly with the next date and is then positive |
| Calculations.BalanceSplits | apps/web/src/features/payments/calculations.ts:44-60 | Remaining less overpaid is total less paid, and one of the two is zero |
| PlanStructure.SchemaIssues | apps/web/src/features/payments/schemas.ts:101-132 | The schema reports no issue exactly for distinct sequence numbers and at most one deposit, numbered 1 |
| PlanStructure.ServiceAgreesWithSchema | apps/web/src/features/payments/service.ts:418-443 | The service accepts exactly the same structures, by set size and deposit count |
| PlanStructure.SizeCountsDistinct | apps/web/src/features/payments/service.ts:428-434 | A list has as many distinct numbers as items exactly when none repeats |
| Transactions.RunSerializable | apps/web/src/lib/serializable-transaction.ts:23-48 | Only lost conflicts are retried, at most three attempts, and a rejection never is; the answer is the body's on the state of the one attempt that did not lose |
| ExportJoin.GroupBy | apps/web/src/features/payments/export-repository.ts:103-112 | The loop gives each key its rows in arrival order and no other key an entry |
| ExportJoin.GroupIsAnswer | apps/web/src/features/payments/export-repository.ts:103-112 | A group of a sorted query answer answers the narrower query for its key |
| ExportJoin.OneAnswer | apps/web/src/features/payments/repository.ts:1098-1134 | Where the ordering decides every pair a query has exactly one answer |
| ExportJoin.OrderingsSort | apps/web/src/features/payments/export-repository.ts:220-256 | What the orderings sort: installments by number, allocations and payments by time and then by id |
| ExportBatch.FindBookingExportRecords | apps/web/src/features/payments/export-repository.ts:275-332 | The records built through the maps are the ones composed from the groups |
| ExportBatch.BatchReadsTheNestedRecord | apps/web/src/features/payments/export-repository.ts:198-332 | Whatever the flat and nested queries answer, each exported booking gets exactly the nested record and order of the single-booking read |
| ExportBatch.FlatReadsFollowTheBookings | apps/web/src/features/payments/export-repository.ts:198-271 | The flat queries read exactly the rows that lead, through allocation, installment and live plan or through the payment, to an exported booking |
| ExportRows.Columns | apps/web/src/features/payments/export-rows.ts:28-100 | Every header has its dataset's width |
| ExportRows.ShapedRowsFitHeader | apps/web/src/features/payments/export-rows.ts:180-331 | Every shaped row is as wide as its header |
| ExportRows.BookingRowBalances | apps/web/src/features/payments/export-rows.ts:180-217 | Read back from a booking row, total less paid is remaining less overpaid |
| ExportRows.PaymentRowBalances | apps/web/src/features/payments/export-rows.ts:219-264 | Read back from a payment row, the amount splits into refunded, allocated and unallocated, none negative |
| ExportRows.InstallmentRowBalances | apps/web/src/features/payments/export-rows.ts:311-331 | Read back from an installment row, the amount splits into covered and outstanding |
| ExportRows.DerivedCellsAreUntouched | apps/web/src/features/payments/export-csv.ts:18-20 | Amount, date and time cells of the years 0 to 9999 pass the formula check unchanged |
| ExportRows.BookingColumns | apps/web/src/features/payments/export-rows.ts:180-217 | Under each column name a booking row shows its own value: reference, client, currency, paid amount, credit, next due date and amount of an approved plan, plan status, clock |
| ExportRows.PaymentColumns | apps/web/src/features/payments/export-rows.ts:219-264 | Under each column name a payment row shows its own value, its status times from the first history entry of that status, and its receipt |
| ExportRows.RefundColumns | apps/web/src/features/payments/export-rows.ts:266-277 | Under each column name a refund row shows its own value and what of it was linked to allocations |
| ExportRows.AllocationColumns | apps/web/src/features/payments/export-rows.ts:279-309 | Under each column name an allocation row shows its own value, what was refunded through it, and what it still holds: nothing once reversed or while its payment does not count |
| ExportRows.InstallmentColumns | apps/web/src/features/payments/export-rows.ts:311-331 | Under each column name an installment row shows its own value and what is allocated to it |
| ExportRows.FirstTimeIsFirst | apps/web/src/features/payments/export-rows.ts:219-264 | The time of a status is that of its first history entry, and missing exactly without one |
| ExportRows.BookingRefusals | apps/web/src/features/payments/export-rows.ts:180-217 | A booking row is refused exactly for a refund beyond its payment, missing financials or negative credit, under the column that says so |
| ExportRows.PaymentRefusals | apps/web/src/features/payments/export-rows.ts:219-264 | A payment row is refused exactly for refunds beyond the amount, a missing currency, or allocations below zero or beyond the contribution, under the column that says so |
| ExportRows.AllocationRefusals | apps/web/src/features/payments/export-rows.ts:279-309 | An allocation row is refused exactly for a missing currency or a negative remainder |
| ExportRows.InstallmentRefusals | apps/web/src/features/payments/export-rows.ts:311-331 | An installment row is refused exactly for a missing currency or a negative net allocation |
| LedgerExport.SummaryOfLedger | apps/web/src/features/payments/service.ts:1570-1654 | The summary of a ledger's booking shows the paid amount and credit the conservation laws are about |
| LedgerExport.BookingRowIsNeverRefused | apps/web/src/features/payments/export-rows.ts:172-217 | No booking row of a consistent ledger is refused |
| LedgerExport.PaymentRowIsNeverRefused | apps/web/src/features/payments/export-rows.ts:219-264 | No payment row of a consistent ledger is refused |
| LedgerExport.AllocationRowIsNeverRefused | apps/web/src/features/payments/export-rows.ts:279-309 | No allocation row of a consistent ledger is refused |
| LedgerExport.InstallmentRowIsNeverRefused | apps/web/src/features/payments/export-rows.ts:311-331 | No installment row of a consistent ledger is refused |
| LedgerExport.RefundRowIsNeverRefused | apps/web/src/features/payments/export-rows.ts:266-277 | No refund row of a consistent ledger is refused |
| LedgerExport.LedgerFilesAreDelivered | apps/web/src/features/payments/export-service.ts:148-229 | Over records read from any reachable ledger a file is delivered exactly when the account and request may read and the row limit holds; no stored amount refuses a file |
| ExportCsv.EncodeCsv | apps/web/src/features/payments/export-csv.ts:34-48 | Text for equally wide rows, nothing otherwise |
| ExportCsv.CsvRoundTrip | apps/web/src/features/payments/export-csv.ts:26-48 | A reader of section 2 of RFC 4180 gets back the header and exactly the rows, each cell neutralised, unless there is no column at all |
| ExportCsv.NoCellIsAFormula | apps/web/src/features/payments/export-csv.ts:15-24 | No cell begins as a formula does, and exactly the other cells are unchanged |
| ExportCsv.AmountCellIsExact | apps/web/src/features/payments/export-csv.ts:50-61 | A printed amount reads back exactly, and passes the formula check exactly when it is not negative |
| ExportDates.RealCalendarDates | apps/web/src/features/payments/schemas.ts:87-90 | The calendar check accepts every civil day of the years 0 to 9999, every in-range month of an expanded year, and nothing else |
| ExportDates.TextOrderIsChronologicalIff | apps/web/src/features/payments/export-schemas.ts:93-101 | Two accepted dates compare as text the way they do on the calendar exactly when neither or both have a plus sign and two negative ones share their year |
| ExportDates.DueDatesSortChronologically | apps/web/src/features/payments/schemas.ts:80-90 | With the extra four-two-two form of a due date the accepted values do sort chronologically as text |
| ExportDates.BackwardRangeAccepted | apps/web/src/features/payments/export-schemas.ts:93-110 | A concrete range that runs backwards passes both range rules |
| ExportDates.BackwardRangesSelectNothing | apps/web/src/features/payments/export-repository.ts:86-92 | Every accepted range from a plus sign to a plain date selects no instant, though its last day lies between its texts, and counts fewer days than there are dates between them |
| ExportDates.ComparableRangeRule | apps/web/src/features/payments/export-schemas.ts:93-110 | On comparable dates the rules accept exactly the ranges of 1 to 366 days |
| ExportDates.ManilaRangeIsDatesIff | apps/web/src/features/payments/export-repository.ts:86-92 | For every accepted range, selecting an instant of the years 0 to 9999 and its printed Philippine date lying between the two texts are the same, exactly when the range does not run from a plus sign to a plain date |
| ExportDates.DateRangeIsDatesIff | apps/web/src/features/payments/export-repository.ts:94-101 | The same for due dates of the years 0 to 9999 |
| ExportDates.InclusiveDaysAreCountedIff | apps/web/src/features/payments/export-schemas.ts:44-49 | For every accepted range the day count is the number of dates of the years 0 to 9999 between its ends exactly when both ends are plain dates |
| ExportDates.TimestampDate | apps/web/src/features/payments/export-csv.ts:63-70 | The first ten characters of a printed timestamp are its Philippine date |
| ExportDates.TimestampRoundTrip | apps/web/src/features/payments/export-csv.ts:63-70 | A printed timestamp of the years 0 to 9999 reads back to its instant, to the millisecond |
| Calendar.CivilBijection | apps/web/src/features/payments/export-csv.ts:63-75 | Days and civil dates are in order-preserving bijection, as section 21.4.1 of ECMA-262 has it |
| ExportService.ShapeRows | apps/web/src/features/payments/export-service.ts:77-116 | All rows shaped, or the refusal of a row that fails its check |
| ExportService.FinanceExports.Generate | apps/web/src/features/payments/export-service.ts:148-229 | A file is delivered exactly when every step passes, with exactly the stored rows that the request, its range, its status and the stored role's scope select; exactly then one entry is written, whose filters and row and booking counts match the file as read back; encoding never fails after the commit. By role: a manager's file holds all bookings, a finance account's the assigned ones, each row by its day, status and booking, in stored order |
| ExportService.PrintedDateDecides | apps/web/src/features/payments/export-repository.ts:139-184 | A stored row of the years 0 to 9999 is in an accepted range exactly when the date its own row prints lies between the two texts, unless the range runs from a plus sign to a plain date |
| ExportService.FileNamesAllowedBookings | apps/web/src/features/payments/export-repository.ts:75-83 | Every booking named in a file is the requested one, and for a finance account one assigned to it |
| ExportService.AcceptedRequests | apps/web/src/features/payments/export-schemas.ts:51-109 | Exactly which filters each dataset takes: bookings no dates and no status, payments a range or a booking and a status, the others no status |
| ExportService.ReadersAreExporters | apps/web/src/features/payments/export-service.ts:148-176 | Rows are read exactly for an accepted request, with a manager or finance session and a stored, active account in one of those roles |
| ExportService.FinanceFilesNameAssignedBookings | apps/web/src/features/payments/export-service.ts:167-229 | Read back, every row of a finance account's file names a booking assigned to that account, and the entry says so |
| ExportService.ManagerFilesIgnoreAssignments | apps/web/src/features/payments/export-service.ts:167-229 | The rows and the delivery of a manager's file do not depend on any assignment |
| ExportService.FileRowsShowTheRequest | apps/web/src/features/payments/export-repository.ts:139-184 | Read back, every row of a file prints a stored record of the dataset with the status asked for and, in the years 0 to 9999, a date between the texts of the range |
| Assignments.AssignmentTable.Set | apps/web/src/features/assignments/service.ts:225-287 | Set or replace: the current assignee is a no-op before every other check; a replacement ends the old row, adds the new and is audited |
| Assignments.AssignmentTable.End | apps/web/src/features/assignments/service.ts:296-328 | Ends the active row with its entry, or changes nothing |
| Assignments.SetKeepsSynced | apps/web/src/features/assignments/service.ts:225-287 | Setting keeps at most one active row a target and role and the audit replay equal to it |
| Assignments.OtherReplaysUnmoved | apps/web/src/features/assignments/service.ts:522-614 | A change for one target and role moves no other replay; consultant and finance histories never mix |
| LeadAnswers.SetAnswers | apps/web/src/features/assignments/service.ts:225-287 | Applied exactly for an existing target, an eligible member who does not hold the role yet, and a reason when somebody else does; only that target and role move, and the entry names both |
| LeadAnswers.EndAnswers | apps/web/src/features/assignments/service.ts:296-328 | Applied exactly when somebody holds the role on an existing target; then nobody does, and nothing else moves |
| LeadAnswers.LeadMatrix | apps/web/src/features/leads/transitions.ts:20-104 | The status table by progress: an open lead moves on or is closed, a closed one is reopened for review or archived once, and nothing leaves a conversion; exactly closing as duplicate or spam and reopening need a reason |
| LeadAnswers.StatusAnswers | apps/web/src/features/leads/service.ts:476-561 | Applied exactly from the expected status along an allowed edge with a reason where one is due; exactly the status and one history row change |
| LeadAnswers.CreateLeadAnswers | apps/web/src/features/leads/service.ts:182-246 | The new lead keeps the contact given with its normal forms, and is held by exactly the consultant who created it |
| LeadAnswers.BeginEditAnswers | apps/web/src/features/leads/service.ts:329-401 | An edit goes on exactly for somebody who may edit a lead that is not converted, keeps a contact and changes something; exactly the changed columns will be written |
| LeadAnswers.ConversionHappensIff | apps/web/src/features/leads/service.ts:675-862 | A lead is converted exactly when it is qualified, the consultant holds it, and either no client is named and none shares a contact, or the named one does and may be handled too |
| LeadAnswers.CreatedClientIsTheLead | apps/web/src/features/leads/service.ts:773-830 | The created client has the lead's own e-mail, phone and normal forms and its active consultant; the lead keeps its own, and no other row changes |
| LeadAnswers.LinkedClientIsUntouched | apps/web/src/features/leads/service.ts:788-803 | A link changes no client and no assignment |
| LeadAnswers.CreatedClientKeepsContact | apps/web/src/features/leads/service.ts:778-785 | In every later state a client created from a lead with a contact has one |
| LeadAnswers.UpdateClientAnswers | apps/web/src/features/clients/service.ts:295-462 | Applied exactly from the version seen, to values that leave a contact, when something changes; what it writes |
| LeadAnswers.StatusRefusals | apps/web/src/features/leads/service.ts:476-561 | Each refusal of a status change is given for a reason that holds |
| LeadAnswers.EditRefusals | apps/web/src/features/leads/service.ts:329-401 | Each refusal of an edit is given for a reason that holds, and nothing to do only without a change |
| LeadAnswers.FinishEditAnswers | apps/web/src/features/leads/service.ts:403-437 | Written exactly while its editor may still handle the lead, in exactly the decided columns and their normal forms; otherwise dropped |
| LeadAnswers.ConversionRefusals | apps/web/src/features/leads/service.ts:675-806 | Each refusal of a conversion is given for a reason that holds; a repeat is answered only with the stored client and conflicts only by naming another |
| LeadAnswers.ClientRefusals | apps/web/src/features/clients/service.ts:295-462 | Each refusal of a client update is given for a reason that holds |
| LeadTheorems.AuditReplaysToActive | apps/web/src/features/leads/service.ts:219-240 | After any run of leads, conversions and assignments the assignment audit replays to exactly the active staff member of every target and role |
| LeadTheorems.NormalFormsAgree | apps/web/src/features/leads/service.ts:379-394 | After any run, overlapping edits included, stored normal forms are those of the stored values |
| LeadTheorems.DuplicatesAreExact | apps/web/src/features/clients/repository.ts:351-436 | After any run the duplicate lookups return exactly the other records that share a non-empty normal form |
| Leads.MatchingLeads | apps/web/src/features/leads/repository.ts:354-390 | Exactly the leads whose normalised columns match, without the excluded ones |
| Leads.MatchingClients | apps/web/src/features/leads/repository.ts:392-411 | Exactly the clients whose normalised columns match, without the excluded one |
| LeadTheorems.HistoryIsAPath | apps/web/src/features/leads/transitions.ts:20-104 | A lead's history is a connected path of allowed edges from null to its status, and it is converted exactly when it has a client |
| LeadTheorems.ConversionIsIdempotent | apps/web/src/features/leads/service.ts:715-737 | Whatever follows a conversion, a repeat writes nothing and answers the original client and created flag, or is refused for access or for naming another client |
| LeadTheorems.ConversionStateRoundTrip | apps/web/src/features/leads/service.ts:638-654 | The parser accepts exactly the closed shape a conversion writes |
| LeadTheorems.ClientContactIsKept | apps/web/src/features/clients/service.ts:326-333 | A client that has an e-mail or phone keeps one under every event |
| LeadTheorems.ContactIsLostIff | apps/web/src/features/leads/service.ts:358-437 | Under any event a lead loses its last contact exactly when a pending edit of it, whose editor still may, is written and its columns, with the row's present ones where it writes none, are all empty |
| LeadTheorems.LockedColumnsChangeIff | apps/web/src/features/leads/service.ts:347-437 | Under any event a converted lead stays converted, and its contact columns change exactly when a pending edit of it with a different value, whose editor still may, is written |
| LeadTheorems.SerialEditsKeepTheRules | apps/web/src/features/leads/service.ts:341-437 | In every run whose edits are written before another edit or the conversion of their lead, a lead that ever has a contact keeps one and a converted lead keeps its contact columns |
| LeadTheorems.OverlappingEditsClearBothContacts | apps/web/src/features/leads/service.ts:341-437 | A concrete run in which two overlapping edits leave a lead without any contact |
| LeadTheorems.LateEditReachesConvertedLead | apps/web/src/features/leads/service.ts:341-437 | A concrete run in which an edit begun before a conversion gives the converted lead a new e-mail address |
| LeadOffice.LeadOffice.CreateLead | apps/web/src/features/leads/service.ts:182-246 | New lead with its normal forms, first history row and, for a consultant, the assignment to themselves |
| LeadOffice.LeadOffice.BeginEdit | apps/web/src/features/leads/service.ts:329-401 | Every check of an edit, a consultant's assignment first, and the columns it will write, from a read before the transaction |
| LeadOffice.LeadOffice.FinishEdit | apps/web/src/features/leads/service.ts:403-437 | The write of a decided edit: a consultant who has lost the assignment is refused, nothing of the lead is checked again |
| LeadOffice.LeadOffice.UpdateStatus | apps/web/src/features/leads/service.ts:476-561 | Same status, stale, deferred, rejected and reason cases in order, then the status with its history row |
| LeadOffice.LeadOffice.Convert | apps/web/src/features/leads/service.ts:675-862 | Replay, link or create, with inheritance of the consultant, history and audit entry |
| LeadOffice.LeadOffice.UpdateClient | apps/web/src/features/clients/service.ts:295-462 | Read, staleness, contact rule, change detection and write in one transaction |
| Bookings.BookingTable.Create | apps/web/src/features/bookings/service.ts:112-258 | The answer as a function of the table and the request: the existing booking for an actor who may see it, then an unknown or unaccepted version, then a conflict when three codes are taken or the version is booked, else one booking under the first free code; the whole new table |
| Bookings.BookingTable.UpdateStatus | apps/web/src/features/bookings/service.ts:342-397 | Same status, stale and forbidden cases, then the status with its history row; references and versions stay unique and every history a path |
| Bookings.HistoryOnlyAdvances | apps/web/src/features/bookings/transitions.ts:16-52 | Along any history a booking never goes back a stage and nothing follows its end |
| Bookings.CreateAnswers | apps/web/src/features/bookings/service.ts:112-258 | On a consistent table each answer exactly when it is due: a version is booked exactly once accepted, while no booking has it and one of the codes is free |
| Bookings.BookingMatrix | apps/web/src/features/bookings/transitions.ts:16-52 | The status table by stage: a live booking is cancelled or moves one stage on, except that documents and visa work may be skipped or alternate |
| RateLimit.Limiter.IncrementAndCheck | apps/web/src/features/activation/rate-limit.ts:92-107 | Counts the request in its aligned window; limited exactly when the new count exceeds the limit |
| RateLimit.Limiter.Cleanup | apps/web/src/features/activation/rate-limit.ts:74-82 | Deletes exactly the rows whose window started more than a day before |
| RateLimit.PublishedLimits | apps/web/src/features/activation/rate-limit.ts:29-39 | 30 requests a quarter of an hour from one source, 10 an hour on one token, rows kept for a day |
| RateLimit.AdmitsMinOfArrivalsAndLimitIff | apps/web/src/features/activation/rate-limit.ts:48-107 | After any run every bucket has admitted exactly min(arrivals, limit) in each aligned window, exactly when every request to a full window found a row that shows it full |
| RateLimit.RunStaysExactIff | apps/web/src/features/activation/rate-limit.ts:35-39 | Through a run every row keeps counting every arrival exactly when no request comes to a bucket whose used row was deleted |
| RateLimit.SteadyRunsKeepTheLimit | apps/web/src/features/activation/rate-limit.ts:35-39 | In particular a run in which no request falls behind a cleanup keeps the limit |
| RateLimit.AtMostTwiceTheLimit | apps/web/src/features/activation/rate-limit.ts:85-151 | While the limit is kept any interval of one window length admits at most twice the limit |
| RateLimit.NonDecreasingIsSteady | apps/web/src/features/activation/rate-limit.ts:35-39 | With a clock that never runs backwards cleanup never removes a row that can still be incremented |
| RateLimit.LateRunExceedsTheLimit | apps/web/src/features/activation/rate-limit.ts:35-39 | A run from the empty table, for any bucket: a window is filled, a request more than a day ahead runs a cleanup, and the window admits one request too many |
| Paging.ParsePage | apps/web/src/features/bookings/schemas.ts:93-104 | The page is always a safe positive integer |
| Paging.ParserInvertsPrinting | apps/web/src/features/bookings/schemas.ts:93-104 | Printing and parsing is the identity on 1 to 2^53 - 1 |
| Paging.OnlyPrintedPagesParse | apps/web/src/features/bookings/schemas.ts:85-104 | Every parameter but the printed form of such a number parses as page 1 |
| Paging.RedirectIffPastTheEnd | apps/web/src/features/bookings/service.ts:544-577 | A page redirects exactly when it lies past the last |
| Paging.PagesTileTheListIff | apps/web/src/features/bookings/service.ts:506-577 | The pages 1 to the last hold every booking exactly once in order exactly when the last page has a safe number |
| Paging.HasNextUntilTheLast | apps/web/src/features/bookings/service.ts:506-530 | A page that exists offers a next one exactly when it is not the last |
| Contact.MobileSpellingsAgree | apps/web/src/lib/contact-normalization.ts:13-52 | All five spellings of a mobile number, with any separators, normalise to 63 and its ten digits, and only those and the bare 00 form do |
| Contact.SeparatorsAreIgnored | apps/web/src/lib/contact-normalization.ts:30-31 | Separators never matter |
| Contact.PhoneIdempotentIff | apps/web/src/lib/contact-normalization.ts:30-52 | Normalising twice changes nothing exactly when the digits do not begin 0000, or number 12 or 13 |
| Contact.FourZerosShrinkTwice | apps/web/src/lib/contact-normalization.ts:30-52 | Four zeros normalise to two, and two to none |
| Contact.EmailIdempotent | apps/web/src/lib/contact-normalization.ts:7-9 | E-mail normalisation is idempotent |
| Contact.EmailNormalForm | apps/web/src/lib/contact-normalization.ts:7-9 | White space around an address is dropped, capital letters become small ones, and nothing else changes |

## Left out

- Sessions, roles and assignment checks: every operation starts after access was granted, except the consultant checks of a conversion and of a lead edit and the role and scope of an export, which decide their outcomes.
- Prisma and PostgreSQL internals: that a transaction is one atomic step, and that a lost attempt of one leaves nothing behind, is assumed; a lost race is the step that comes second. CHECK constraints are not modelled; the invitation invariants show the ones on delivery evidence are never needed.
- SHA-256, HMAC, UUID and reference generation: an injective digest, fresh token numbers, and codes given as inputs.
- Row ids are table positions in the ledger and the lead office; rows are never deleted there, as in the source.
- `INVITATION_EXPIRED` as a stored status: the code never writes it, and the model proves that no row has it.
- Audit entries of the ledger, of bookings and of lead edits, and message wording; the invitation, assignment, conversion and export entries are modelled.
- Receipts, currency precision (the one supported currency has two decimals) and the Zod length limits.
- Unicode case folding and trimming in `normalizeEmail`: text is ASCII. UTF-8 encoding of the CSV text.
- Legacy date strings that a JavaScript engine may parse beyond the ECMA-262 format: the round trip of the calendar check rejects every value that is not of the two modelled forms.
- Instants of expanded years print a cut-off form; the range theorems are about every accepted range but the instants and due dates of the years 0 to 9999, the only ones a printed date can be compared in.
- The joins of the payments, refunds, allocations and installments exports, which repeat the pattern of the bookings join; their filters and row shapers are modelled on the joined records. The export filename, and the format check of a requested booking reference.
- ExportService.FinanceExports.Generate: the stored rows come joined, in the dataset's order, and with installments of approved plans only.
- Transactions.RunSerializable: that a lost attempt leaves nothing behind is assumed by the type of its body.
- The duplicate lookups' visibility shaping and the fields of leads and clients that carry no rule.
- Booking deletion of assignments: no such operation exists. Travel-status labels and the client portal's fact ladder.
- HTTP helpers, React pages, configuration and tests.
