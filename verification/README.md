# A model of the property-operations services

A Dafny model of the stateful services behind a property-management workspace, with proofs of what
they keep over whole runs.

- `Outbox`, `QueueTiming`, `Notify`, `ChannelRules`, `Delivery`, `DeliveryChannels`, `DeliverySecrecy`,
  `DeliveryDiscipline`, `DeliveryFinality`, `OutboxWorker`: the outbox as an interleaved protocol of any
  number of workers with leases, crashes, recoveries and late completion writes, what each send rests on
  and when each row is due, and the dispatcher as a class whose every method is a run of that protocol.
- `RateLimit`, `Login`, `LoginRaces`: the fixed-window limiter, the failure counter with its lock, and
  what attempts in flight together do to it.
- `Dates`, `Rent`, `Cheques`: day arithmetic, the rent ceiling of Decree 43, the even cheque schedule.
- `Risk`, `RiskRaces`, `RiskRecords`, `Deadlines`, `Payments`, `PaymentRaces`, `PaymentDesk`: flags
  against a replayed ledger, deadlines that mirror their sources, the payment state machine, and a schedule
  change end to end; the races split each call into its check and its later write.
- `Renewals`, `NoticeLedger`, `NoticeRaces`, `RenewalCalls`, `RenewalEffects`, `RenewalReasons`, `OfferTable`,
  `OfferBand`, `RenewalDesk`, `RenewalOffice`: renewal cases, versioned offers, notices, tenant links and
  minting, first as single database steps in any interleaving, then as service calls, then as tables changed
  in place, together with the payments, deadlines and risk a completion writes; each call also by when it is accepted, why it is
  refused and what it leaves on the rows.
- `NextAction`, `GuidedRenewal`, `GuidedRuns`, `Stranding`, `StrandedRun`: the next-action decision
  function, what following it achieves, and when a decided case can no longer be completed.
- `Imports`, `ImportLease`, `ImportRecords`, `ImportDeadlines`, `ImportUndo`, `ImportRoundTrip`,
  `ImportConflicts`, `ImportRuns`, `ImportRemovals`, `ImportRaces`, `ImportRisk`, `ImportDesk`: import
  commit and rollback with shared contacts, over whole runs, with schedule changes in between and with commits that overlap.
- `Scopes`, `ScopeRecords`: list filters and by-id checks of viewers, tenants, landlords and agents, and the
  records that open each door.

How the model is laid out. Rows of a table are named by their position in a sequence, so creation
order is position order and a fresh row is the next position. Each step or call is a function from
state to state; unique indexes are conditions on the writes they guard; the theorems quantify over
runs of these functions. Code that changes rows step by step also appears as a class whose fields are
the tables and whose methods, loops included, are proved equal to those functions. Money is in whole
fils, dates are day numbers, instants are milliseconds, and the gap bands are exact rationals.

Where the code falls short of its documentation or of what one would expect, the code is kept and the
exact condition is proved:

- Exclusivity of outbox claims rests on the smallest backoff being at least the lease; it fails for
  every shorter one (`Delivery.ExclusionIffBackoffCoversLease`).
- A dispatched or failed row is final exactly while no worker is in flight on it
  (`DeliveryFinality.FinalIffUnheld`), and it can be pending again exactly when such a worker has
  attempts left (`DeliveryFinality.ReopensIffAttemptsLeft`).
- The provider is called at most once per message exactly over runs in which no worker dies between
  send and status write and no handler outlives its lease
  (`DeliveryDiscipline.AtMostOneSendIffStrict`).
- The limiter's comment speaks of a burst of up to twice the limit; the attained maximum is
  2 * limit - 1 (`RateLimit.BurstBoundIsTight`).
- Rounding to whole dirhams can make the last cheque of a very small rent negative
  (`Cheques.AmountsNonNegativeIffCovered`), at 54 dirhams over twelve cheques and never from 55 on.
- Acknowledging a cleared flag puts flags and ledger out of step exactly when no other flag of its scope
  and code is active; beside one the unique index refuses it (`Risk.AcknowledgeFaithfulIffActive`).
- Raising and clearing look before they write; flags and ledger stay in step exactly in the
  interleavings in which no flag is cleared twice and none revived
  (`RiskRaces.RacesFaithfulIffHarmless`). Payments alike (`PaymentRaces.RacesBalancedIffHarmless`).
- The failure counter is read and written apart: five guesses per lock term hold exactly when attempts
  do not overlap (`LoginRaces.FivePerTermIffOneAtATime`), with m at once at most
  m + m^2 + m^3 + m^4 + m^5 (`LoginRaces.OverlappingGuessesAreBounded`).
- A schedule change can delete items an import created; the rollback is accepted exactly while none is
  gone (`ImportRemovals.RollbackAcceptedIff`).
- Of two commits of one batch that overlap a rollback takes back only the second
  (`ImportRaces.OverlappingCommitsOrphanTheFirst`).
- A proposal or counter on a case that the active-case index bars leaves an open offer that is not
  current (`OfferTable.TableCall`).
- A tenant counter, a proposal or a served notice after an acceptance, and no other call, takes the case
  out of AGREED for good (`Stranding.StrandedByExactly`, `Stranding.CompletableIff`); the next action
  then recommends a completion that is always refused
  (`Stranding.RecommendedCompletionAcceptedIff`, `StrandedRun.ProposalAfterAcceptanceStrands`).
- A completion whose successor has no positive notice period fails after its mint, which stands
  (`RenewalOffice.CompletionAcceptedIffNoticePositive`).
- A notice call checks and then writes without a guard, so overlapping calls can log an approval twice
  or serve a notice without its event; rows and events stay in step exactly in the interleavings
  whose every write is harmless where it lands (`NoticeRaces.RacesTruthfulIffHarmless`), and a served
  notice stays served exactly when no stale approval or record lands on it
  (`NoticeRaces.ServedStaysIff`).
- The page check of a link still accepts it at the instant it expires, when the consuming guard no longer
  does (`RenewalCalls.ValidationAndConsumptionAgree`).
- The comment on landlord scope lists deadlines among what a landlord of record does not see of other
  leases; derived deadlines carry the unit and are listed exactly when the landlord is of record on any
  lease of it (`Scopes.UnitDeadlineListedIffOfRecordOnUnit`).
- A row scoped to the sentinel id would be listed under an empty scope, though never opened
  (`Scopes.SentinelListedIffSetEmpty`).

## Model

| member | source | states |
|---|---|---|
| Delivery.ClaimsOfARowNeverOverlap | src/server/outbox/index.ts:89-149 | in every interleaving of workers, crashes, recoveries and late writes, two claims of one row are at least a lease apart and no row is inside two live leases, when the backoff is at least the lease |
| Delivery.ExclusionIffBackoffCoversLease | src/server/outbox/index.ts:45-145 | exclusivity in every interleaving holds if and only if the smallest backoff is at least the lease |
| Delivery.ShippedNumbersAreJustEnough | src/server/outbox/index.ts:44-45 | the shipped minute and minute are enough, and any longer lease with the same backoff has a reachable overlap |
| Delivery.ShortBackoffBreaksExclusion | src/server/outbox/index.ts:135-149 | for every shorter backoff, a reachable state with two live leases on one row |
| Delivery.LateFailureReopensRow | src/server/outbox/index.ts:135-149 | a failing worker that lost its lease puts the row another worker holds back to pending |
| Delivery.LeaseInvStep | src/server/outbox/index.ts:94-149 | every protocol step keeps the claims of a row spaced and pending rows out of reach of earlier leases |
| DeliverySecrecy.SecretsStayOffTheRecord | src/server/notify/index.ts:31-80 | in every interleaving: finished rows hold no body, a row body is the original text or absent, a sensitive message row holds only the placeholder, every send carries the original text under its own message key |
| DeliverySecrecy.BodyInvRead | src/server/notify/index.ts:99-115 | reading a claimed notification never turns the stored placeholder into the text to deliver |
| DeliverySecrecy.BodyInvComplete | src/server/outbox/index.ts:129-149 | a completion keeps the body on a retry and drops it on every final status |
| DeliveryDiscipline.AtMostOneSendPerMessage | src/server/outbox/index.ts:123-154 | without a crash between send and status write and without handlers outliving their lease, the provider is called at most once per message, attempts equals completed runs, and five runs end a row |
| DeliveryDiscipline.AtMostOneSendIffStrict | src/server/outbox/index.ts:89-149 | at most one provider call per message over all runs of a discipline if and only if it forbids both the crash after a send and the handler that outlives its lease |
| DeliveryDiscipline.TerminalIsFinal | src/server/outbox/index.ts:123-149 | in such runs a dispatched or failed row never changes again |
| DeliveryDiscipline.CrashAfterSendRepeatsTheCall | src/server/notify/index.ts:153-171 | with such a crash the provider is called twice, both times under the same key |
| DeliveryDiscipline.OutlivingTheLeaseRepeatsTheCall | src/server/notify/index.ts:98-171 | without a crash, a handler that outlives its lease calls the provider a second time under the same key |
| DeliveryDiscipline.DispatchedIsNotFinalWithoutDiscipline | src/server/outbox/index.ts:123-149 | a dispatched row can go back to pending when a handler outlives its lease |
| DeliveryFinality.FinalIffUnheld | src/server/outbox/index.ts:123-149 | in any state a dispatched or failed row is the same in every continuation if and only if no worker is in flight on it |
| DeliveryFinality.ReopensIffAttemptsLeft | src/server/outbox/index.ts:123-149 | such a row can go back to pending if and only if a worker in flight on it has attempts left |
| QueueTiming.FailureBacksOff | src/server/outbox/index.ts:127-149 | after the n-th failed run a row is due again 1, 2, 4 and 8 minutes later to the millisecond, with its payload; the fifth failure ends it and drops the text |
| QueueTiming.LeaseEndsToTheMillisecond | src/server/outbox/index.ts:94-116 | a claimed row stays leased through the last millisecond of its lease and is released by a recovery right after |
| QueueTiming.EnqueuedWhenAsked | src/server/outbox/index.ts:26-43 | an enqueued entry may be claimed from the moment asked for, under its topic and key |
| QueueTiming.KeysArePerTopic | prisma/schema.prisma:955-957 | a row takes its key for its own topic and for no other |
| ChannelRules.VerdictByRecords | src/server/notify/index.ts:99-150 | on the records: a queued message is sent over WhatsApp if and only if that is its channel or preferred, the recipient consented, the provider is configured and a phone is on file; any other one that is sent goes by e-mail, to the payload address, else to the recipient; every other verdict by its cause |
| DeliveryChannels.SendsFollowTheRecords | src/server/notify/index.ts:117-171 | in every interleaving each provider call goes over the channel, to the address and with the text that the rules give for some records that a worker read |
| OutboxWorker.HandlerIsARun | src/server/notify/index.ts:93-172 | the handler as one function of its surroundings is the same as its read, act and write steps in the protocol |
| OutboxWorker.Worker.Notify | src/server/notify/index.ts:31-81 | refuses a sensitive in-app message, else stores the message and at most one send row; its new state is a protocol step |
| OutboxWorker.Worker.RecoverExpired | src/server/outbox/index.ts:94-98 | exactly the processing rows whose lease has passed become pending |
| OutboxWorker.Worker.SelectDue | src/server/outbox/index.ts:102-110 | at most the batch size of due rows, oldest first, leaving out no older due row |
| OutboxWorker.Worker.ClaimBatch | src/server/outbox/index.ts:101-121 | leases exactly the selected rows and returns their snapshots, as claims of the protocol |
| OutboxWorker.Worker.DeliverNotification | src/server/notify/index.ts:93-172 | one delivery on the message row and the recipient: channel, address, text and status, by consent, configuration and phone, and which failures leave the entry to be retried |
| OutboxWorker.Worker.FinishEntry | src/server/outbox/index.ts:127-150 | the completion write lands on the row whatever happened to the lease |
| OutboxWorker.Worker.DispatchPending | src/server/outbox/index.ts:89-155 | one dispatch is a protocol run, leaves no claim of its own in flight and completes exactly the due batch |
| RateLimit.RateLimiter.Consume | src/server/services/rateLimit.ts:26-51 | one statement opens, rolls or bumps the window of its key only, and reports ok and remaining |
| RateLimit.AtMostTwiceTheLimit | src/server/services/rateLimit.ts:26-51 | over any run at most 2 * limit - 1 hits on a key pass within a closed interval of one window length |
| RateLimit.BurstBoundIsTight | src/server/services/rateLimit.ts:22-24 | for every limit and window a run that reaches the bound |
| RateLimit.WindowPassesExactlyTheFirst | src/server/services/rateLimit.ts:35-50 | of the hits of one window exactly the first `limit` pass |
| RateLimit.FirstLimitPass | src/server/services/rateLimit.ts:35-50 | within a live window the n-th further hit reads count + n, whatever other keys do |
| Login.Accounts.LoginWithPassword | src/server/auth/index.ts:81-110 | signs in if and only if the account exists, any lock has ended and the password is the stored one, and then counter and lock are gone; a miss counts once and locks at the fifth; all other accounts untouched |
| Login.Accounts.SetUserPassword | src/server/auth/index.ts:62-74 | a new password, no counter and no lock on that account, all others untouched |
| Login.OpensExactlyToThePassword | src/server/auth/index.ts:81-109 | after any history an attempt succeeds if and only if no lock is running and the password is the stored one; the fields after a success and after a miss |
| Login.ResetOpensToTheNewPassword | src/server/auth/index.ts:62-109 | after a reset the next attempt with the new password succeeds, with any other it fails |
| Login.GuessesArePaced | src/server/auth/index.ts:81-110 | after any history, until the next success or reset, an interval of length T holds at most 5 + floor(T / 15 min) counted wrong guesses |
| Login.PaceIsTight | src/server/auth/index.ts:18-19 | a run of guesses that reaches the bound for every number of lock terms |
| Login.LockHolds | src/server/auth/index.ts:88-101 | while the lock holds no guess succeeds, the right one included, and nothing about the account moves |
| Login.FifthMissLocks | src/server/auth/index.ts:91-99 | the fifth miss refuses everything for the full term |
| LoginRaces.OverlappingGuessesAreBounded | src/server/auth/index.ts:81-104 | with attempts split into reading and writing and at most m in flight at once, in every interleaving from a fresh account at most m + m^2 + m^3 + m^4 + m^5 wrong guesses are tested within a lock term |
| LoginRaces.FivePerTermIffOneAtATime | src/server/auth/index.ts:18-19 | five guesses per lock term are kept if and only if at most one attempt is in flight at a time |
| LoginRaces.UninterruptedIsTheAttempt | src/server/auth/index.ts:90-100 | a miss that nothing overlaps is the attempt as one step |
| LoginRaces.TwoTogetherCountOnce | src/server/auth/index.ts:91-99 | two guesses that read the account together count once, and a sixth is tested |
| Dates.NoticeGate | src/server/calculators/dates.ts:33-44 | an error exactly for a notice period that is not positive, else the day that many days before the end |
| Dates.GatePassesAtDubaiMidnight | src/server/calculators/dates.ts:85-90 | the gate counts as passed from the first Dubai midnight after it, to the millisecond |
| Rent.BandCountsTenths | src/server/calculators/rent.ts:36-44 | the band is five points per started tenth of the gap beyond the first, at most twenty |
| Rent.CeilingMonotoneInMarket | src/server/calculators/rent.ts:32-60 | a higher market average never lowers the ceiling |
| Rent.CeilingWithinDecree | src/server/calculators/rent.ts:32-60 | the ceiling lies between the current rent and its rounded 120 per cent; without a band it is the rent |
| Rent.CeilingBelowMarket | src/server/calculators/rent.ts:36-46 | a ceiling with a band stays strictly below the market average |
| Rent.CeilingExactly | src/server/calculators/rent.ts:32-60 | exactly one ceiling fits: the rent raised by the band of its shortfall, to the nearest fils |
| Cheques.ScheduleSumsToRent | src/server/services/payments.ts:34-50 | the amounts add up to the rent to the fils |
| Cheques.ScheduleShape | src/server/services/payments.ts:40-49 | min(count, 12) items numbered 1..n with equal amounts, the last within n/2 dirhams of them |
| Cheques.SharesAreWhole | src/server/services/payments.ts:43-47 | all but the last cheque are whole dirhams, the nearest to the even share |
| Cheques.DueDatesAreEven | src/server/services/payments.ts:42-47 | due dates start on the first day, stay in the term, and all gaps, the last one to the end included, differ by at most a day |
| Cheques.DueDatesAreNearest | src/server/services/payments.ts:45-46 | each due day is the nearest one to its share of the term |
| Cheques.SmallRentGoesNegative | src/server/services/payments.ts:43-47 | 54 dirhams over twelve cheques end in a negative cheque |
| Cheques.AmountsNonNegativeIffCovered | src/server/services/payments.ts:43-47 | no cheque is negative if and only if the share was rounded down or what the whole shares leave over covers what rounding up took |
| Cheques.AmountsNonNegativeFrom55Dirhams | src/server/services/payments.ts:43-47 | from 55 dirhams a year on no cheque is negative |
| Risk.FlagsMatchLedger | src/server/services/risk.ts:37-129 | while flags and ledger agree, raised minus cleared is 1 with an active flag and 0 without, and there is never more than one active flag per scope and code |
| Risk.SettleFaithful | src/server/services/risk.ts:37-129 | raising and clearing keep the flags equal to a replay of an alternating ledger |
| Risk.SettleEffect | src/server/services/risk.ts:37-129 | a raise or clear gives the wanted answer for its own scope and code and leaves every other answer alone |
| Risk.LedgerAlternates | src/server/services/risk.ts:37-373 | over any run from an empty desk of raises, clears, acknowledgements while a flag of that kind is active, evaluations and sweeps, RAISED and CLEARED of each scope and code alternate, raised first, and the flag is active exactly when raised leads |
| Risk.AcknowledgeFaithfulIffActive | src/server/services/risk.ts:368-373 | acknowledging keeps flags and ledger in step if and only if the flag, or another of its scope and code, is active; beside an active one the unique index refuses the write |
| Risk.StaleAcknowledgementIsRefused | prisma/migrations/20260617184840_riskflag_partial_unique/migration.sql:12-15 | a flag raised, cleared and raised again: acknowledging its cleared row changes nothing |
| Risk.RiskDesk.AcknowledgeFlag | src/server/services/risk.ts:368-373 | the write by row id, refused for an unknown row and by the unique index |
| RiskRaces.RacesFaithfulIffHarmless | src/server/services/risk.ts:37-129 | with raises and clears split into look and write, in every interleaving with acknowledgements from an empty table flags and ledger stay in step throughout if and only if no write clears a cleared flag and no acknowledgement revives one |
| RiskRaces.LandingFaithfulIff | src/server/services/risk.ts:99-129 | the same for one late write |
| RiskRaces.UninterruptedIsTheCall | src/server/services/risk.ts:37-129 | a look followed at once by its write is the whole call |
| RiskRaces.TwoClearsOfOneReading | src/server/services/risk.ts:99-129 | two clears that both find the flag log the clearing twice |
| Risk.ReevaluationIsSilent | src/server/services/risk.ts:135-191 | evaluating unchanged facts twice adds no flag and no event |
| Risk.TenancyFlagsTellTheTruth | src/server/services/risk.ts:135-191 | after an evaluation each tenancy flag is up exactly when its rule holds |
| Risk.CaseFlagsTellTheTruth | src/server/services/risk.ts:263-310 | after an evaluation of a case its two flags are up exactly when their rules hold, the frozen ceiling first, and a second evaluation is silent |
| Risk.NightlySweepIsIdempotent | src/server/services/risk.ts:328-341 | a second sweep of the workspace on the same day writes nothing |
| Risk.SweepTellsTheTruth | src/server/services/risk.ts:328-341 | after one sweep every flag of every live tenancy and case of the workspace is up exactly when its rule holds |
| Risk.AcknowledgeMarksOneRow | src/server/services/risk.ts:368-373 | the one row is acknowledged, unless it is cleared beside an active flag of its kind; no other row and no event changes |
| RiskRecords.ScheduleFlagsOnRecords | src/server/services/risk.ts:135-191 | on payment rows, dates and the Ejari number: after a schedule change the cheque-total, gate and Ejari flags are up exactly when the rows say so |
| RiskRecords.CaseFlagsOnRecords | src/server/services/risk.ts:263-310 | on offers and captures: the band flag is up exactly when the offer looked at is above its frozen ceiling, or without one above the ceiling on record; the window flag exactly when the gate is past without service |
| RiskRecords.ArchivedTenancyStaysQuiet | src/server/services/risk.ts:139-143 | a schedule change on an archived tenancy raises and clears nothing and leaves it no open deadline |
| Risk.RiskDesk.RaiseFlag | src/server/services/risk.ts:37-85 | raises unless active, with one event, and keeps ledger and flags in step |
| Risk.RiskDesk.ClearFlag | src/server/services/risk.ts:87-129 | clears the active flag, with one event, and keeps ledger and flags in step |
| Risk.RiskDesk.EvaluateRiskForTenancy | src/server/services/risk.ts:135-191 | the in-place evaluation equals the rule list settled in order |
| Risk.RiskDesk.EvaluateRenewalRisk | src/server/services/risk.ts:263-310 | the in-place evaluation of a case equals its two rules settled in order |
| Risk.RiskDesk.EvaluateWorkspaceRisk | src/server/services/risk.ts:328-341 | the sweep equals its jobs settled one after the other |
| Deadlines.RegenerateMirrors | src/server/services/deadlines.ts:68-119 | from any tidy table a live tenancy ends with exactly one open gate, expiry and renewal deadline on the computed days and one open cheque deadline per live item; the gate is cached |
| Deadlines.MirrorIsABijection | src/server/services/deadlines.ts:99-118 | open cheque deadlines and live items correspond one to one with equal days |
| Deadlines.RegenerateTwiceIsOnce | src/server/services/deadlines.ts:68-119 | a second regeneration changes nothing |
| Deadlines.ArchiveClosesEverything | src/server/services/deadlines.ts:78-84 | an archived tenancy keeps no open deadline |
| Deadlines.RegenerateTouchesOneTenancy | src/server/services/deadlines.ts:68-119 | deadlines of other tenancies stay where they are |
| Deadlines.RegenerateRowByRow | src/server/services/deadlines.ts:36-118 | whatever the table: exactly the stale cheque deadlines are cancelled, derived ones are written over open ones of their slot or added, and no other row changes |
| Deadlines.ManualTidyIffHarmless | src/server/services/deadlines.ts:274-316 | a hand-made entry keeps derived deadlines unique and every open cheque deadline tied to its item if and only if it is not an open cheque deadline and opens no derived slot twice |
| Deadlines.AlwaysTidy | src/server/services/deadlines.ts:20-119 | over any run no derived deadline is open twice |
| Deadlines.DeadlineTable.UpsertDeadline | src/server/services/deadlines.ts:20-65 | the in-place upsert equals the table function |
| Deadlines.DeadlineTable.RegenerateDeadlinesForTenancy | src/server/services/deadlines.ts:68-119 | the in-place regeneration equals the table function, and changes nothing on a bad notice period |
| Payments.ScheduleReplaced | src/server/services/payments.ts:61-89 | refused exactly for a repeated seq; else items past SCHEDULED are unchanged, planned ones are gone, and each requested item is there as given, and no other, unless its seq is history |
| Payments.LedgerBalances | src/server/services/payments.ts:97-259 | in every run, deposits = clearings + bounces + the one out, receipts run at most one ahead, an active late flag implies LATE |
| Payments.ClearedIsFinal | src/server/services/payments.ts:97-106 | a cleared item never changes again |
| Payments.LateSweepIsIdempotent | src/server/services/payments.ts:211-259 | a second sweep on the same day changes neither items, flags nor ledger |
| PaymentRaces.SweepRaisesFlags | src/server/services/payments.ts:211-259 | after a sweep exactly the overdue items became LATE, and each of them has an active late flag |
| PaymentRaces.TransitionAcceptedIff | src/server/services/payments.ts:97-134 | in a balanced book a transition is accepted if and only if its target fits the receipts of the item and it is neither a repetition nor a revival; else 404 or 422 |
| PaymentRaces.TransitionWrites | src/server/services/payments.ts:134-178 | an accepted transition writes the status, its event, and takes the late flag down where it settles the item |
| PaymentRaces.RacesBalancedIffHarmless | src/server/services/payments.ts:61-259 | with transitions and the sweep split into check and write, in every interleaving with schedule changes from an empty book items, ledger and late flags stay in balance throughout if and only if each write finds an item its move still fits |
| PaymentRaces.LandingBalancedIff | src/server/services/payments.ts:134-178 | the same for one late write, by status, history and late flag of the item where it lands |
| PaymentRaces.UninterruptedIsTheCall | src/server/services/payments.ts:116-178 | a check followed at once by its write is the whole call |
| PaymentRaces.TwoDepositsOfOneReading | src/server/services/payments.ts:130-160 | two calls that both read a received cheque deposit it twice |
| PaymentDesk.ScheduleIsConsistent | src/server/services/payments.ts:53-94 | after a schedule change deadlines mirror the items, the gate is cached, the cheque-total flag is up exactly on a mismatch, and deriving again changes nothing |
| PaymentDesk.MirrorOfRows | src/server/services/deadlines.ts:99-118 | the mirror said in terms of payment rows, in both directions |
| PaymentDesk.MintedScheduleMatchesRent | src/server/services/renewals.ts:1355-1370 | minting with a cheque count never leaves the cheque-total flag on the successor |
| PaymentDesk.PaymentRegister.TransitionPayment | src/server/services/payments.ts:116-203 | the transition table in place, with its event and the cleared late flag, or a refusal that changes nothing |
| PaymentDesk.PaymentRegister.DetectLatePayments | src/server/services/payments.ts:211-259 | the sweep in place equals the book function |
| PaymentDesk.PaymentRegister.SetPaymentSchedule | src/server/services/payments.ts:53-94 | replacement, deadlines and risk in place equal the composed function, a stopped derivation included |
| Renewals.OneDecisionPerCase | src/server/services/renewals.ts:910-947 | in every interleaving from empty tables: at most one accepted offer per case, decided exactly when accepted, AGREED or RENEWED implies it, first decision, successor and offer terms never change, a link records at most its cap of responses |
| Renewals.RenewalsFormChains | src/server/services/renewals.ts:1321-1349 | no tenancy is renewed twice, and renewals form disjoint chains without cycles |
| Renewals.StatusMovesForward | src/server/services/tenancies.ts:153-162 | outside a dispute a tenancy only moves forward; it is renewed only from an open stage and then only archived |
| Renewals.PathsAreShort | src/server/services/tenancies.ts:153-162 | a path of allowed moves without a dispute has at most five moves, and none from ARCHIVED |
| Renewals.StrandedForever | src/server/services/renewals.ts:1302-1304 | a decided case that left AGREED before its completion is never completed in any continuation |
| Stranding.StrandedByExactly | src/server/services/renewals.ts:832-1230 | of all calls, exactly those that table an offer on a decided, uncompleted case or serve a notice of it with proof strand it |
| Stranding.CompletionAcceptedIff | src/server/services/renewals.ts:1298-1371 | completing a decided case is accepted if and only if the input is sound, the notice period of the successor included, the case is not stranded and its tenancy has no successor |
| Stranding.RecommendedCompletionAcceptedIff | src/server/services/renewalNextAction.ts:159-168 | a recommended completion is accepted if and only if the case is AGREED, its tenancy has no successor and the input is sound, the notice period of the successor included |
| Stranding.CompletableIff | src/server/services/renewals.ts:1298-1349 | some sequence of calls completes a decided case if and only if it is not stranded and its tenancy has no successor |
| StrandedRun.ProposalAfterAcceptanceStrands | src/server/services/renewals.ts:832-907 | a run of calls from empty tables, with a served notice and an official index, to a case whose recommended completion is refused at once and after any further calls |
| Renewals.DecidedStep | src/server/services/renewals.ts:924-941 | every step keeps the decided offer equal to the accepted offer of its case |
| Renewals.MintStep | src/server/services/renewals.ts:1321-1349 | the mint transaction keeps cases and minted tenancies in one-to-one correspondence |
| Renewals.ActiveStep | prisma/migrations/20260622120000_pilot_integrity_hardening/migration.sql:35-37 | every step keeps at most one case per tenancy that is not terminal |
| Renewals.LinkStep | src/server/services/secureLinks.ts:95-109 | responses recorded or owed through a link never exceed its uses, nor its uses the cap |
| Renewals.ForeverStep | src/server/services/renewals.ts:832-947 | no step takes back a decision, a successor, an acceptance or the terms of an offer |
| NoticeLedger.LedgerTellsTheTruth | src/server/services/notice.ts:30-300 | with each notice call one step: for each notice the events are a prefix of generated, approved, optionally recorded, served, ending where the row stands; served rows carry proof; a case has a service date exactly when one of its notices is served |
| NoticeLedger.ServedIsFinal | src/server/services/notice.ts:129-189 | with each notice call one step: a served notice keeps its status and proof for good |
| NoticeRaces.RacesTruthfulIffHarmless | src/server/services/notice.ts:76-300 | with calls split into check and write, in every interleaving from empty tables rows and events stay in step throughout if and only if each write finds the notice, and for a service the tenancy, where it still may be moved |
| NoticeRaces.LandingTruthfulIff | src/server/services/notice.ts:129-189 | the same for one write with a stale check, the event lost to a refused tenancy move included |
| NoticeRaces.ServedStaysIff | src/server/services/notice.ts:76-257 | in every interleaving of checks and writes a served notice keeps its status, and proof of service, if and only if no approval or record without proof checked before lands on it |
| NoticeRaces.HarmlessKeepsServed | src/server/services/notice.ts:76-257 | so it stays served in every interleaving whose writes are harmless |
| NoticeRaces.StaleApprovalUnserves | src/server/services/notice.ts:84-88 | a run from empty tables in which an approval checked before overwrites a served notice |
| NoticeRaces.UninterruptedIsTheCall | src/server/services/notice.ts:76-300 | a check followed at once by its write is the whole call |
| NoticeRaces.TwoApprovalsOfOneReading | src/server/services/notice.ts:76-101 | two approvals that both read a generated notice log the approval twice |
| NoticeRaces.TwoServicesLoseAnEvent | src/server/services/notice.ts:158-160 | two notices of one case served at the same time: the second is served without its event |
| NoticeRaces.ServedWithoutItsEvent | src/server/services/notice.ts:158-172 | such an interleaving from empty tables |
| RenewalCalls.CallIsARun | src/server/services/renewals.ts:832-1349 | whatever a service call replies, it got there by enabled steps, a refusal half way included |
| RenewalCalls.CallsKeepInvariants | src/server/services/renewals.ts:832-1401 | over any sequence of calls all invariants hold and nothing decided is undone |
| RenewalCalls.AcceptPathsAgree | src/server/services/renewals.ts:1163-1194 | the tenant acceptance and the internal one end in the same state with the same reply |
| RenewalCalls.LinkActsAtMostItsCap | src/server/services/renewals.ts:1233-1243 | over any sequence of calls the answers through a link that leave a trace, an offer left by a refused counter included, are at most its cap |
| RenewalEffects.OpenEffect | src/server/services/renewals.ts:39-100 | a live case of the tenancy answers, else one is opened with its gate; accepted if and only if there is a live case or a notice period |
| RenewalEffects.CaptureEffect | src/server/services/renewals.ts:132-215 | accepted if and only if market and rent are positive and an official claim has its artefact; the row holds the ceiling of the decree |
| RenewalEffects.ProposeEffect | src/server/services/renewals.ts:832-907 | accepted if and only if the rent is positive and the index has room; open offers superseded, the new one numbered next with its frozen ceiling, current, the tenancy negotiating, no other row changed |
| RenewalEffects.CounterEffect | src/server/services/renewals.ts:1106-1160 | the same for a counter of the tenant, which also needs a schedule and moves no tenancy |
| RenewalEffects.AcceptEffect | src/server/services/renewals.ts:910-972 | accepted if and only if the offer is open, the case undecided and the index has room; offer accepted, case agreed on it, the other open offers superseded, the tenancy renewed from an open stage |
| RenewalEffects.SendEffect | src/server/services/renewals.ts:977-1012 | a fresh link with five uses and fourteen days |
| RenewalEffects.ViaLinkEffect | src/server/services/renewals.ts:1233-1243 | without a use nothing happens; with one the count rises by one and the rest is the answer in the portal |
| RenewalEffects.MintEffect | src/server/services/renewals.ts:1298-1349 | accepted if and only if the case is agreed without a successor and the terms are sound; the new row starts and ends on the days asked for, with rent, notice and source; predecessor and case are renewed, the case carries the id, no other row changes |
| RenewalEffects.CompletionEffect | src/server/services/renewals.ts:1298-1371 | the same for the whole call, whose reply also needs a positive notice period; the mint stands without |
| RenewalEffects.ServeEffect | src/server/services/notice.ts:198-257 | accepted if and only if approved and, with proof, the index has room; proof, document, service date, event and tenancy move on the rows |
| RenewalEffects.ConfirmEffect | src/server/services/notice.ts:269-300 | accepted if and only if a service is recorded, proof is given and the index has room |
| RenewalEffects.SetStatusEffect | src/server/services/tenancies.ts:153-184 | accepted if and only if the target may be reached from the status, target by target; only that status changes |
| RenewalReasons.RefusedForAReason | src/server/services/renewals.ts:39-1349 | a call is refused if and only if its row, figures, status or predecessor give it a reason, and with the status code of that reason: 422, 404, 410, 422, 409 in that order, the rest untranslated |
| RenewalCalls.NewestOffer | src/server/services/renewals.ts:844-848 | an offer of the case with the highest version, none exactly when the case has no offer |
| RenewalCalls.NextVersion | src/server/services/renewals.ts:844-848 | above every version of the case |
| RenewalCalls.LatestCapture | src/server/services/renewals.ts:786-797 | a counting capture with the latest capture time, none exactly when there is none |
| OfferTable.OffersOfACase | src/server/services/renewals.ts:832-907 | over any sequence of calls versions are exactly 1..n, an open offer is the only open and the newest one, and it is current in every run that tables nothing against the active-case index |
| OfferTable.TableCall | src/server/services/renewals.ts:839-882 | a call keeps the open offer current if and only if it is not a proposal or counter on a case the index bars |
| OfferTable.VersionsAreOneToN | src/server/services/renewals.ts:844-848 | a version exists exactly when it lies in 1..n |
| OfferTable.PutOnTableCurrent | src/server/services/renewals.ts:840-882 | the new offer becomes current exactly when the index lets the case be active |
| OfferBand.BarredProposalLeavesAStrayOffer | src/server/services/renewals.ts:861-882 | a concrete run in which a proposal on a completed case fails at its last write and leaves an open offer that is not current |
| OfferBand.FrozenCeilingSettlesTheBand | src/server/services/risk.ts:277-300 | while an offer with a frozen ceiling is current nothing changes the above-band answer |
| OfferBand.UnfrozenBandFollowsCaptures | src/server/services/risk.ts:277-300 | without a frozen ceiling the next capture decides the flag |
| NextAction.LatestCase | src/server/services/renewals.ts:420-423 | the case of the tenancy opened last |
| NextAction.LatestNotice | src/server/services/renewals.ts:446-451 | the notice of the case prepared last |
| NextAction.EachCodeByItself | src/server/services/renewalNextAction.ts:48-216 | each recommendation and its urgency by itself: the facts under which it is given, whatever the order of the branches |
| NextAction.UrgencyNeverFallsTowardsTheGate | src/server/services/renewalNextAction.ts:48-216 | as the gate comes nearer the urgency never falls, and until it is passed the action stays the same |
| NextAction.FactsOnRecords | src/server/services/renewals.ts:418-480 | gate, days to it, status, decision and successor as the rows of tenancy, newest case and offers have them |
| GuidedRuns.GuidedRenewalCompletes | src/server/services/renewalNextAction.ts:54-217 | from a tenancy without a case, after any history, every recommended call is accepted, there are at most 8 calls plus 3 per counter or question, and unless the gate is missed the run can go on or is complete |
| GuidedRuns.FullRunIsComplete | src/server/services/renewalNextAction.ts:62-72 | a run that used its bound has completed the renewal |
| GuidedRuns.RecommendedCallProgresses | src/server/services/renewalNextAction.ts:54-217 | a recommended call is accepted, keeps the renewal on track and lowers the number of calls left |
| GuidedRuns.SomethingToDo | src/server/services/renewalNextAction.ts:94-217 | unless the gate is missed the recommendation is the completed review or something that can be done |
| GuidedRuns.CodeOfFacts | src/server/services/renewalNextAction.ts:62-216 | what each code says about facts on track; only a missed gate leads to a review |
| GuidedRuns.StrandedIsRecommendedToComplete | src/server/services/renewalNextAction.ts:159-168 | a stranded case is recommended for completion, and completing it is refused |
| GuidedRenewal.PutOnTableIsFresh | src/server/services/renewals.ts:839-882 | on an undecided active case a tabled offer becomes the newest, with no link to it and nothing accepted |
| GuidedRenewal.LinkAnswer | src/server/services/renewals.ts:1233-1243 | an answer through a usable link does what the same answer in the portal does |
| GuidedRenewal.NoSuccessorYet | prisma/migrations/20260622120000_pilot_integrity_hardening/migration.sql:24-24 | a tenancy whose only case is not minted has no successor |
| RenewalDesk.Desk.OpenRenewalCase | src/server/services/renewals.ts:39-100 | returns the active case or opens one with the computed gate; errors in source order |
| RenewalDesk.Desk.CaptureRentIndex | src/server/services/renewals.ts:132-215 | appends the capture with its ceiling frozen, or refuses in source order |
| RenewalDesk.Desk.ProposeOffer | src/server/services/renewals.ts:832-907 | supersede, insert, point, move the tenancy, then re-evaluate the case; on a late refusal the earlier writes stay |
| RenewalDesk.Desk.AcceptInTransaction | src/server/services/renewals.ts:924-947 | all of the acceptance or none of it, 409 for a closed offer, a decided case or a refusing index |
| RenewalDesk.Desk.AcceptOffer | src/server/services/renewals.ts:910-972 | the acceptance and the tenancy move |
| RenewalDesk.Desk.ApplyTenantOfferResponse | src/server/services/renewals.ts:1106-1230 | counter, accept or question, with the source refusals |
| RenewalDesk.Desk.RespondToOfferViaLink | src/server/services/renewals.ts:1233-1243 | the use is consumed first and counted whether or not the response lands |
| RenewalDesk.Desk.SendOfferToTenant | src/server/services/renewals.ts:977-1012 | a five-use link for the offer |
| RenewalDesk.Desk.MintRenewedTenancy | src/server/services/renewals.ts:1298-1349 | accepted if and only if the case is agreed without a successor and the terms are sound; then the successor with the days, rent and notice asked for, the predecessor RENEWED and the case carrying the id, else nothing |
| RenewalCalls.ValidationAndConsumptionAgree | src/server/services/secureLinks.ts:71-109 | the friendly check and the consuming guard disagree at the instant of expiry only |
| RenewalCalls.UnusableForever | src/server/services/secureLinks.ts:95-129 | a revoked, expired or used-up link stays unusable in every continuation and at every later time |
| RenewalDesk.Desk.RevokeSecureLink | src/server/services/secureLinks.ts:111-129 | the link is revoked, everything else stays |
| RenewalDesk.Desk.SetTenancyStatus | src/server/services/tenancies.ts:153-184 | moves exactly where the transition table allows it, else 404 or 422 and nothing changes |
| RenewalDesk.Desk.ArchiveTenancy | src/server/services/tenancies.ts:186-192 | archives whatever the status was, with the date |
| RenewalOffice.Office.ArchiveTenancy | src/server/services/tenancies.ts:186-205 | the archived row with its date, and every open deadline of the tenancy cancelled |
| RenewalOffice.Office.CompleteRenewal | src/server/services/renewals.ts:1298-1371 | the mint, whose successor has the term, rent, notice and source asked for, then schedule, deadlines, gate and risk in place, the first cheque on the successor's own startDay; a bad notice period stops after the mint |
| RenewalOffice.CompletionAcceptedIffNoticePositive | src/server/services/renewals.ts:1321-1371 | a completion whose mint is accepted goes through if and only if the notice period of the successor is positive, and then items, deadlines, gate and flags of the successor agree; the mint stands either way |
| RenewalOffice.CompletionIsTheCall | src/server/services/renewals.ts:1298-1371 | on the renewal tables and in its reply the completion with schedule, deadlines and risk is the call the runs are made of |
| RenewalOffice.WholeCompletionAcceptedIff | src/server/services/renewals.ts:1298-1371 | completing a decided case, everything after the mint included, is accepted if and only if terms and notice period are sound, the case is not stranded and its tenancy has no successor |
| RenewalOffice.CompletionWithChequesAddsUp | src/server/services/renewals.ts:1355-1367 | with cheques asked for, the cheque-total flag of the successor is down |
| RenewalOffice.CompletionDelivers | src/server/services/renewals.ts:1298-1371 | a completion that replies with an id was mintable and added that successor, with its term, rent, notice and source, and no other change to the renewal tables; with cheques the first is due on its own startDay |
| RenewalOffice.FirstChequeOnTheStart | src/server/services/renewals.ts:1355-1371 | the first cheque of the successor is due on its own startDay, as a planned item of that tenancy |
| RenewalDesk.Desk.TryMoveTenancy | src/server/services/renewals.ts:773-779 | moves the tenancy where the transition table allows it and otherwise leaves it |
| RenewalDesk.Desk.ConsumeLinkUse | src/server/services/secureLinks.ts:95-109 | consumes exactly when not revoked, not expired and below the cap; otherwise nothing changes |
| RenewalDesk.Desk.EvaluateRenewalRisk | src/server/services/risk.ts:263-310 | the rules read the current offer, else the newest live one, and keep flags and ledger in step |
| RenewalDesk.Desk.PrepareNotice | src/server/services/notice.ts:30-73 | a generated notice with its event |
| RenewalDesk.Desk.ApproveNotice | src/server/services/notice.ts:76-112 | approval from GENERATED only, with its event |
| RenewalDesk.Desk.ServeNoticeFormal | src/server/services/notice.ts:198-257 | served with proof, recorded as pending without, refused from any other status |
| RenewalDesk.Desk.ConfirmNoticeService | src/server/services/notice.ts:269-300 | a pending record becomes served only with proof |
| RenewalDesk.Desk.ServeRenewalNotice | src/server/services/notice.ts:302-327 | prepare, approve and serve in one go |
| ImportRoundTrip.RollbackUndoesCommit | src/server/services/imports.ts:202-587 | committing a batch and rolling it back restores live contacts, properties, tenancies, items, open deadlines and every document scope exactly, also when the derivations stopped early |
| ImportUndo.RollbackKeepsReferencedContacts | src/server/services/imports.ts:544-554 | in any state a rollback archives a contact of the batch exactly when no live row of the checked models names it afterwards, and changes no other contact |
| ImportUndo.NoReferencesMeansNone | src/server/services/contactReferences.ts:58-79 | an empty answer means that no live row of any checked model names the contact |
| ImportUndo.RowTracks | src/server/services/imports.ts:223-399 | old rows are untouched, every new row is remembered and nothing else is, a moved document was free and its old scope is remembered |
| ImportUndo.DeriveOnlyDerives | src/server/services/imports.ts:437-441 | the derivations after a commit touch only deadlines and gates of the new tenancies |
| ImportUndo.UndoDeadlines | src/server/services/imports.ts:495-503 | a rollback cancels exactly the open deadlines of the tenancies it archives |
| ImportUndo.UndoDocuments | src/server/services/imports.ts:506-517 | a moved document returns to the scope that was remembered |
| ImportLease.RowBecomesLease | src/server/services/imports.ts:223-399 | a committed row adds exactly one tenancy with its own terms, on the property the row names, between the landlord and the tenant that its parties resolve to, with its document and exactly the items of its schedule |
| ImportLease.PartyResolved | src/server/services/imports.ts:723-803 | a party is the live contact chosen; else the only live one of its kind with the Emirates ID; else the only one with the name; else, with a name, a new contact; else none |
| ImportLease.PartyIsResolved | src/server/services/imports.ts:723-803 | accepted if and only if a chosen contact is live and of the kind, with that contact as the answer |
| ImportLease.ItemsAdded | src/server/services/imports.ts:378-393 | the schedule arrives item by item, and only with distinct sequence numbers |
| ImportRoundTrip.DocumentHoldsOneLease | src/server/services/imports.ts:331-359 | a batch read from one contract document never commits two rows |
| ImportRoundTrip.BatchMovesForward | src/server/services/imports.ts:209-210 | a refused commit changes nothing; only a committed batch is rolled back |
| ImportRuns.CommittedOnceRolledBackOnce | src/server/services/imports.ts:94-587 | over any run of import and payment calls, each one step, a batch is committed at most once and rolled back at most once, after its commit; its status says which, and a rolled-back batch stays so |
| ImportRuns.RollbackUndoesCommitInAnyRun | src/server/services/imports.ts:94-587 | wherever a run of import and payment calls over a well-formed workspace commits a batch, an immediate rollback is accepted and restores the live view |
| ImportRuns.ScheduleIsTheDesks | src/server/services/payments.ts:53-94 | a schedule change within a run of imports is that of the payment desk on rows, flags and deadlines, stops included |
| ImportRemovals.RollbackAcceptedIff | src/server/services/imports.ts:475-505 | after any import and payment calls a rollback is accepted if and only if the batch is committed and no item it created was deleted |
| ImportRemovals.RollbackLostByExactly | src/server/services/payments.ts:63-71 | of all import and payment calls exactly the rollback itself and a schedule change on an item still scheduled end its acceptance |
| ImportRemovals.LostForGood | src/server/services/imports.ts:503-505 | once an item of a committed batch is deleted its rollback is refused after any further calls |
| ImportRemovals.EmptiedScheduleBlocksRollback | src/server/services/payments.ts:63-71 | such a run of four calls from empty tables |
| ImportRaces.OverlappingCommitsOrphanTheFirst | src/server/services/imports.ts:202-404 | when two calls that overlap commit one batch, its rollback takes back the second alone and finishes the batch; the view from before is restored if and only if there was no row to take |
| ImportRaces.UninterruptedIsTheCall | src/server/services/imports.ts:202-465 | a commit whose transaction follows its check at once is the whole call |
| ImportRaces.SecondCommitSeesTheSameRows | src/server/services/imports.ts:212-236 | the second call works through the rows it read: same data, document and rows to take |
| ImportRaces.DocumentStopsTheSecond | src/server/services/imports.ts:331-359 | for a batch read from a contract document the second transaction is refused |
| ImportRaces.OverlapIsPossible | src/server/services/imports.ts:202-404 | a batch without one for which it is accepted |
| ImportRisk.NewTenanciesAreFlaggedRight | src/server/services/imports.ts:437-441 | after a commit the missing-Ejari and cheque-total flags of every new tenancy are up exactly when their rules hold |
| ImportRisk.OverlapsAreFlagged | src/server/services/imports.ts:442-462 | a held-back overlapping row leaves the overlap flag on a live lease of the property it names |
| ImportRisk.StoppedCommitFlagsNoOverlap | src/server/services/imports.ts:437-462 | derivations that stop end the call before the pass over held-back rows: no overlap flag moves |
| ImportConflicts.ConflictMeans | src/server/services/imports.ts:141-196 | an undecided row becomes a conflict exactly for a number repeated in the batch, a number on record or an overlapping lease, and says which |
| ImportConflicts.PendingRowsAreFresh | src/server/services/imports.ts:148-194 | rows left pending have distinct Ejari numbers, none on record, and overlap no lease on file |
| Imports.TheOne | src/server/services/imports.ts:747-772 | a contact is the match if and only if it is the only live one of the kind with the key; two with one name match nobody |
| ImportRecords.RowTakenIff | src/server/services/imports.ts:223-399 | a row is committed if and only if its chosen contacts are live and of their kind, the client may be used, an agent keeps within its book, the document is free and the schedule repeats no number |
| ImportRecords.RowRefusedFor | src/server/services/imports.ts:223-399 | and otherwise with the code of the first of these that fails |
| ImportRecords.ConflictOnRecords | src/server/services/imports.ts:141-196 | on the rows: an undecided row conflicts if and only if an earlier undecided one or a live tenancy has its number, or a live lease of its unit meets its term |
| ImportRecords.BatchRefusedFor | src/server/services/imports.ts:115-487 | a missing batch is 404, a final one takes neither rows nor a commit, and only a committed one is undone; each refusal changes nothing |
| ImportRecords.ReferencesOnRecords | src/server/services/contactReferences.ts:58-79 | a contact counts as referenced exactly when a live property, tenancy or other row names it |
| ImportRecords.RollbackKeepsNamedContacts | src/server/services/imports.ts:544-554 | a rollback keeps every contact that a live row names |
| ImportRecords.OverlapFlagsOnRecords | src/server/services/imports.ts:442-462 | the overlap flag is up where it was and on the lease each held-back overlapping row belongs on, and nowhere else |
| ImportDeadlines.NewTenanciesHaveTheirDeadlines | src/server/services/imports.ts:437-441 | after a commit every new tenancy has its gate, expiry, renewal and cheque deadlines |
| ImportDeadlines.EachRowOneTenancy | src/server/services/imports.ts:212-399 | a commit adds one tenancy per row that is pending or accepted, and none for any other |
| ImportDesk.Desk.ResolveImportParty | src/server/services/imports.ts:723-803 | explicit id with 404 and 422, else the only live Emirates ID match, else the only live name match, else a new contact when there is a name |
| ImportDesk.Desk.PlaceImportProperty | src/server/services/imports.ts:257-300 | reuse by id or address, or create; an agent only within its book |
| ImportDesk.Desk.AttachContract | src/server/services/imports.ts:331-376 | refuses a document attached elsewhere, else moves it and remembers its scope |
| ImportDesk.Desk.AddScheduleItems | src/server/services/imports.ts:378-393 | items one by one, refused on a repeated sequence number |
| ImportDesk.Desk.CommitImportBatch | src/server/services/imports.ts:202-465 | the rows or nothing, then deadlines and risk of each new tenancy and the overlap flags of held-back rows |
| ImportDesk.Desk.CreateImportBatch | src/server/services/imports.ts:94-113 | an empty uploaded batch |
| ImportDesk.Desk.AddImportRows | src/server/services/imports.ts:115-138 | appends the rows to a batch that is not final and runs the conflict pass |
| ImportDesk.Desk.DetectConflicts | src/server/services/imports.ts:141-196 | the conflict pass in place |
| ImportDesk.Desk.UndoRecords | src/server/services/imports.ts:491-541 | undoes one row of records, collecting its contacts, and stops at one that is gone |
| ImportDesk.Desk.RollbackImportBatch | src/server/services/imports.ts:468-587 | both passes in place, or nothing |
| ImportDesk.Desk.FindContactReferences | src/server/services/contactReferences.ts:58-79 | the models with a live row that names the contact |
| Scopes.ListMatchesDoor | src/server/services/contactScope.ts:226-287 | for viewer, persona and delegate and for tenancies, properties, documents and proof requests, the list filter matches exactly what the by-id door opens |
| ScopeRecords.ProofOpens | src/server/services/contactScope.ts:100-103 | for all three kinds of context: a proof request opens if and only if it is in the workspace and is scoped to a property, tenancy or item that opens, or to the client of a viewer |
| ScopeRecords.DoorsOpenByRecords | src/server/services/contactScope.ts:226-287 | every door said on the records, by owner, tenant, landlord of record, client and book, with documents by what they are scoped to |
| ScopeRecords.ItemsListedByRecords | src/server/services/payments.ts:303-327 | the items listed are those of the tenancies that open |
| ScopeRecords.DeadlinesListedByRecords | src/server/services/delegateScope.ts:122-126 | the deadlines listed are those of a property or tenancy that opens |
| Scopes.ClauseListIsSwitch | src/server/services/clientScope.ts:135-169 | the clause list and the membership switch of a client scope agree |
| Scopes.ContactClauseListIsSwitch | src/server/services/contactScope.ts:110-145 | the clause list and the membership switch of a contact scope agree |
| Scopes.SentinelListedIffSetEmpty | src/server/services/clientScope.ts:23-31 | for viewers and delegates a document scoped to the sentinel is listed if and only if the id set of its scope type is empty, and it is never opened |
| Scopes.ViewerTenancies | src/server/services/clientScope.ts:39-55 | the tenancies of a viewer are exactly those whose property belongs to the client |
| Scopes.ItemFollowsTenancy | src/server/services/payments.ts:303-327 | a payment item is listed exactly when its tenancy opens |
| Scopes.DeadlineFollowsUnitOrLease | src/server/services/delegateScope.ts:122-126 | a deadline is listed exactly when its property or its tenancy opens |
| Scopes.BooksDistribute | src/server/services/delegateScope.ts:33-62 | the scope of two books together is the union of their scopes, empty books included |
| Scopes.ClientsDistribute | src/server/services/clientScope.ts:39-78 | the scope of a set of clients is the union over the clients |
| Scopes.LandlordOfRecordSeesOneLease | src/server/services/contactScope.ts:70-91 | on a unit not owned, a landlord of record sees that tenancy, its items and documents and those of no other lease |
| Scopes.UnitDeadlineListedIffOfRecordOnUnit | src/server/services/contactScope.ts:195-199 | on a unit not owned, a deadline that carries the unit is listed if and only if the landlord is of record on some lease of the unit, whichever lease it belongs to |
| Scopes.LeaseDeadlineListedIffOfRecordOnLease | src/server/services/contactScope.ts:195-199 | a deadline that carries only its lease is listed if and only if the landlord is of record on that lease |
| Scopes.OwnerSeesEveryLease | src/server/services/contactScope.ts:76-90 | an owner sees every lease on the unit |
| Scopes.TenantSeesCurrentLeases | src/server/services/contactScope.ts:54-63 | a tenant sees a tenancy exactly while it is theirs and not archived |
| Scopes.WriteDoorMatchesReadDoor | src/server/services/delegateScope.ts:136-212 | a delegate may write under a property, tenancy or item exactly when it may read there |

## Left out

- Audit rows, capability checks, PDF and copy generation, notification fan-out, password-reset mail and session rows: plumbing around the modelled writes.
- Hashing, tokens and provider adapters: a token is the row it names, a password is compared as text, a provider either takes a send or fails.
- WhatsApp delivery-status events and retries of failed messages: the message row is not written by them in the modelled paths.
- One clock serves the application and the database; the model does not capture skew between the two.
- A message's channel write and the provider call are one protocol step; nothing reads the row in between.
- A unique index is a guard on the write it concerns; isolation levels and row locks are not modelled beyond that.
- Rows that tie on a sort key: the model takes the later position, the database leaves the order open.
- Floating point: ceilings and schedules use exact arithmetic in fils.
- NoticeLedger.LedgerTellsTheTruth: a notice call is one step here; NoticeRaces splits it into its check and its write, but keeps row, tenancy and event of the write together, so a crash between those statements is not modelled.
- NoticeLedger.ServedIsFinal: likewise; with overlapping calls it is NoticeRaces.ServedStaysIff.
- Deadlines.AlwaysTidy: an upsert, its look and its write, is one step; two regenerations of one tenancy at the same time are not modelled.
- ImportRaces.OverlappingCommitsOrphanTheFirst: commits overlap, rollbacks and conflict passes do not.
- Payments.LedgerBalances, Login.GuessesArePaced, Risk.LedgerAlternates: each call is one step; with check and write apart they are the results of PaymentRaces, LoginRaces and RiskRaces, which keep row and event of a write together.
- LoginRaces.OverlappingGuessesAreBounded: one lock term from a fresh account; longer intervals with overlapping attempts are not bounded.
- Renewals.LinkStep: at step level `responses` only counts uses settled as applied; what answers through a link do to the tables is bounded by RenewalCalls.LinkActsAtMostItsCap.
- Offers on listings, and offer terms other than party, rent and frozen ceiling: they take no part in the state machine.
- RenewalDesk.Desk.MintRenewedTenancy: the transaction alone; the schedule, deadlines and risk that follow it are RenewalOffice.Office.CompleteRenewal.
- RenewalOffice.Office.CompleteRenewal: the cheque count is a whole number, the source floors it first.
- GuidedRuns.GuidedRenewalCompletes: the recommended calls of one renewal are taken without other calls in between; the history before them is arbitrary.
- RenewalDesk.Desk.ArchiveTenancy: the row alone; the deadlines it loses are RenewalOffice.Office.ArchiveTenancy.
- The texts of the next action (label, reason, link): only code, urgency and due date are modelled.
- Community and building benchmarks: whether one exists is a parameter of the facts.
- Imports: names and Emirates IDs are compared in normalised form, CSV parsing is left out, and one workspace is modelled.
- ImportRoundTrip.RollbackUndoesCommit: risk flags raised after the commit and an agent's assignment of a property it created are not part of the live view, since a rollback does not take them back.
- ImportDesk.Desk.DetectConflicts: the order in which the database returns the rows is taken to be their order in the batch.
- Scopes: narrowing options of the lists (search text, client, kind, archived rows) and the contact list of an agent; passports and listings of the marketplace.
- An empty `in` list without the sentinel matches nothing, as the query library documents today.
- Marketplace, reports, dashboards and search: outside the five cores.
