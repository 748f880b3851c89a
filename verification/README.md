# Exeq Hub in Dafny

Exeq Hub is a multi-tenant back office for service firms: an agenda with a money ledger, charges at a
payment gateway, service invoices (NFS-e) at a tax provider, tax rules in versioned catalogs, and the
delivery of messages. This project models its services and proves what they keep, for one tenant.

Each part is a state machine given twice. A **value** says what one atomic service call does to the rows
(`Agenda.Create`, `Charges.Settle`, `Issuance.Perform`, ...), and a run is a fold over any sequence of
calls. A **class** holds the rows as fields and updates them in the order of the code
(`SchedulingService`, `BillingService`, `NfIssue`, `TaxRuleStore`, `Dispatcher`, `ChannelService`); every
method's postcondition is the value, so what is proved about runs holds of the methods. A raise is an
`Err`, and leaves the rows as they were.

Single calls are pinned by lemmas named `...Iff`, `...Outcome` and `...Is`: they say when a call succeeds and what
it leaves, read off the rows, the arguments and the answers, without the functions the call is computed with. What
runs keep is proved on top.

| part | files |
|---|---|
| agenda and slots | BookingRules, Agenda, Slots, SchedulingService |
| ledger and commissions | Ledger, Commission, SchedulingService |
| charges and webhooks | Charges, ChargeRuns, ChargeCalls, ChargeOutcomes, Payments, Announcements, PlanReach, GatewayKeys, Webhooks, BillingService |
| plans and dates | Calendar, Plan |
| NFS-e issues | Issuance, IssuanceService |
| tax rules, IBS/CBS, BRL text | TaxEngine, TaxEngineService, RtcAssessment, Rounding, Money, Text |
| outbox and inbound messages | Outbox, Channel |

`dafny verify dfyconfig.toml` checks everything.

## What the proofs show about the code

The expected guarantees hold, except in these cases. Each is proved with the condition that separates the
cases in which the guarantee holds from those in which it fails.

- Editing buffers can make two booked footprints overlap; an edit is safe for every reachable agenda exactly
  when it widens no room between two services. The booked intervals never overlap.
- Recurring time off is not consulted when the footprint crosses local midnight
  (apps/scheduling/services.py:147); then it decides nothing, and otherwise it is kept clear of.
- A payment is recorded and never announced, in any continuation, exactly when the callback that records it
  is applied to a charge already PAID: by its own lookup, or by an earlier enrichment
  (apps/billing/services.py:278, 798 and 917). A sync that comes first records and announces it.
- A lookup can leave a charge PAID with no event and no announcement: after an emission or a stored creation,
  or in a callback. PAID, one event and one announcement agree throughout a run exactly when no step does so.
- A creation that raises after the gateway received a part, and an emission whose answer is lost, forget what
  the gateway registered. A key is registered twice exactly when a later step registers one forgotten so.
- The minimum charge is checked on the total only; parts can be below it, exactly when the total is less
  than the minimum times the parts.
- Counting occurrences raises for some ends in December 9999, although the dates up to the end exist.
- An emission that raises after the provider received it is rolled back without trace. A visit to QUEUED
  sends at most one emission exactly when none follows such a raise in it.
- The poller and the webhook disagree on an issue without a provider reference, exactly when it is POLLING or
  the word says cancelled. The branch is defensive: it takes an emission that returns no reference.
- The national fallback depends on the order of the rows exactly when no applying rule strictly comes first;
  matches by code never do.
- In the test year of the IBS/CBS transition a larger amount lowers the base exactly when the rounded taxes
  rise by more than the amount, by two cents at most; two cents left after the exact taxes exclude it.
- Printing an amount fails beyond 28 digits, so the round trip of text holds up to there and only there.

## Model

| member | source | states |
|---|---|---|
| Agenda.NeverDoubleBooks | apps/scheduling/services.py:161-361 | from any safe agenda, over every run of bookings, status calls and catalog edits, the intervals of two slot-blocking appointments of one professional are disjoint; while no edit widens the room two services need between them (after the first plus before the second), the expanded footprints are disjoint too |
| Agenda.EditedBuffersOverlap | apps/scheduling/services.py:161-303 | every edit that widens the room between some two services breaks an agenda that bookings lead to, two visits exactly as far apart as they needed to be; the intervals stay disjoint |
| Agenda.EditIsSafeIff | apps/scheduling/services.py:161-303 | a catalog edit keeps the footprints of every agenda reached by a run from an empty one disjoint if and only if it widens no such room |
| Agenda.GapsKeepDisjoint | apps/scheduling/booking_rules.py:72-81 | two disjoint footprints stay disjoint under new buffers that widen no room |
| Agenda.RivalsBefore | apps/scheduling/services.py:215-361 | the inductive core: two rivals after a step were rivals before it with the same intervals, or one is the booking just accepted and it is clear of the other |
| Agenda.StepKeepsRows | apps/scheduling/services.py:340-361 | a step never deletes or reschedules an appointment; a status changes only along the source sets of the six calls |
| Agenda.RunKeepsRows | apps/scheduling/services.py:340-426 | over every run rows persist and CANCELLED, NO_SHOW and COMPLETED are final |
| Agenda.NoShowPendingUnreachable | apps/scheduling/services.py:364-426 | no service call ever produces NO_SHOW_PENDING, although three calls accept it as a source |
| Agenda.ReplayReturnsSameRow | apps/scheduling/services.py:231-252 | booking again with the same request returns the first row and changes nothing, at any later time and after any run |
| Agenda.BookingIsClearOfAbsences | apps/scheduling/services.py:119-158 | an accepted booking keeps its footprint clear of blocks and time off, and of recurring time off when the footprint stays within one local day |
| Agenda.RecurringSkippedAcrossMidnight | apps/scheduling/services.py:144-158 | the same-day condition cannot be dropped: a booking accepted inside recurring time off because its buffer crosses midnight |
| Agenda.RecurringIgnoredAcrossMidnight | apps/scheduling/services.py:144-158 | whenever the footprint leaves its local day, replacing the recurring time off by anything changes no answer |
| Agenda.RecurringMissedIff | apps/scheduling/services.py:144-158 | an accepted booking can overlap recurring time off of its day if and only if its footprint leaves that day |
| Agenda.Accepted | apps/scheduling/services.py:254-303 | what an accepted request has passed: a positive length, an initial status, opening hours that cover it, and no absence or conflict |
| Agenda.SlotFreeIff | apps/scheduling/services.py:91-187 | the three guards of a slot, read off the rows: both ends on one local day within one row in force, the row of the professional or else of the tenant; no block, time off or same-day recurring time off in the footprint; and room before and after every appointment neither cancelled nor a no-show |
| Agenda.BookedIff | apps/scheduling/services.py:254-326 | a fresh request is booked if and only if these conditions hold, opening hours, absences and conflicts spelled out on the rows; then exactly one row is added, given field by field |
| Agenda.KnownKeyIff | apps/scheduling/services.py:231-252 | under a key of the agenda nothing is booked: the row is returned for the same request, and any other is refused |
| Agenda.MoveIff | apps/scheduling/services.py:340-426 | the six status calls as one table: target, sources, repetition and refusal |
| BookingRules.NoReentry | apps/scheduling/booking_rules.py:17-48 | no call leaves CANCELLED, NO_SHOW or COMPLETED, so no released slot is taken again by its old row |
| BookingRules.OverlapIsCommonInstant | apps/scheduling/booking_rules.py:105-109 | the overlap test says exactly that some instant lies in both half-open intervals |
| BookingRules.ClearOfFootprint | apps/scheduling/booking_rules.py:72-81 | clear footprints imply clear intervals, whatever the buffers |
| Slots.ListedIffBookable | apps/scheduling/services.py:429-496 | for an eligible request at the same now, a start is listed if and only if it lies on the grid of a business-hours row with room for it and the booking routine accepts it; a refused query means a refused booking |
| Slots.InGridRow | apps/scheduling/services.py:462-496 | the loop over one row visits exactly the starts origin + k * step whose slot ends within the row |
| Slots.InGridRows | apps/scheduling/services.py:462-496 | the same for the list of rows |
| Slots.NonPositiveIntervalDiverges | apps/scheduling/services.py:465-495 | with a non-positive interval and room for one slot the exit condition never holds: the precondition of the list is exact |
| Slots.OneMoreRow | apps/scheduling/services.py:429-496 | one more appointment, whatever its status, filters the list by its footprint |
| Slots.BookThenRelease | apps/scheduling/services.py:374-426 | a booking removes exactly the slots whose footprint meets the new one; cancelling it or marking a no-show restores the earlier list, order included |
| Scheduling.SchedulingService.CreateAppointment | apps/scheduling/services.py:215-326 | the method leaves the rows and the answer of the booking function, refusals in the order of the code |
| Scheduling.SchedulingService.Transition | apps/scheduling/services.py:340-361 | idempotent on the target status, refused off the source set, otherwise only the status changes |
| Scheduling.SchedulingService.AssertNoAppointmentConflict | apps/scheduling/services.py:161-187 | the scan answers whether the footprint meets that of any slot-blocking appointment of the professional |
| Scheduling.SchedulingService.AssertSlotFree | apps/scheduling/services.py:276-299 | hours, absences and conflicts in the order of the code; the answer is stated on the rows |
| Scheduling.SchedulingService.ListRow | apps/scheduling/services.py:465-495 | the cursor loop returns the free starts of the grid of one row |
| Scheduling.SchedulingService.ListRows | apps/scheduling/services.py:462-496 | row by row |
| Scheduling.SchedulingService.ListAvailabilitySlots | apps/scheduling/services.py:429-496 | the list, under the exact condition for the loop to end |
| Ledger.BooksStayBalanced | apps/scheduling/finance.py:38-142 | over every run deposit + discount <= price = the price of the appointment, the balance is exactly the difference, and a commission entry exists if and only if the appointment is COMPLETED, on that price and between 0 and it |
| Ledger.CompleteKeepsBooks | apps/scheduling/services.py:404-415 | the completion hook opens the financial and the entry in step with the status |
| Ledger.SettledIsFinal | apps/scheduling/finance.py:97-142 | a settled financial never changes again; an entry keeps its amounts and a cancelled entry everything |
| Ledger.CompleteIff | apps/scheduling/finance.py:38-204 | a completion succeeds exactly on IN_PROGRESS or COMPLETED; it opens the financial at the price, and books one entry whose professional, service, base, status, rule and amount are spelled out, or keeps the one there is |
| Ledger.CompletionUsesBestRule | apps/scheduling/finance.py:162-204 | the first completion books the rule that goes before every other rule of the professional and service, and its amount |
| Ledger.DepositIff | apps/scheduling/finance.py:60-94 | a deposit is accepted if and only if the financial is open and it fits in the balance before it; the balance moves by the difference and nothing else changes |
| Ledger.SettleIff | apps/scheduling/finance.py:97-142 | a first settlement is accepted if and only if its discount fits in the balance and has a reason, and stores discount, reason and method; a second one changes nothing |
| Ledger.SettleTrimsReason | apps/scheduling/finance.py:118-125 | a reason of white space is none; any other is stored trimmed |
| Ledger.SetEntryStatusIff | apps/scheduling/finance.py:207-226 | any named status is stored, except over CANCELLED |
| Scheduling.SchedulingService.EnsureFinancialOnCompleted | apps/scheduling/finance.py:38-57 | opens or re-prices an unsettled financial |
| Scheduling.SchedulingService.CreateCommissionEntryForCompleted | apps/scheduling/finance.py:162-204 | one entry per completed appointment, from the best rule |
| Scheduling.SchedulingService.CompleteAppointment | apps/scheduling/services.py:404-415 | status, financial and entry together, or nothing |
| Scheduling.SchedulingService.RecordDeposit | apps/scheduling/finance.py:60-94 | the deposit under its guards, with every error |
| Scheduling.SchedulingService.SettleFinancial | apps/scheduling/finance.py:97-142 | the settlement under its guards; a second settlement changes nothing |
| Scheduling.SchedulingService.SetCommissionEntryStatus | apps/scheduling/finance.py:207-226 | a cancelled entry refuses any other status |
| Commission.ResolveBest | apps/scheduling/commission_resolution.py:50-73 | filter, stable sort and first element, equal to the specification function |
| Commission.OutranksIsScopeOrder | apps/scheduling/commission_resolution.py:20-25 | the weighted key is the order branch, professional, service, priority, id |
| Commission.BestIsUniqueMaximum | apps/scheduling/commission_resolution.py:50-73 | the choice is the unique maximum of the matching rules, and exists exactly when one matches |
| Commission.BestIgnoresOrder | apps/scheduling/commission_resolution.py:50-73 | a permutation of the rules changes nothing |
| Commission.HalfEvenUnique | apps/scheduling/commission_resolution.py:76-81 | the rounding is the one nearest-even integer |
| Commission.CommissionBounds | apps/scheduling/commission_resolution.py:76-81 | 0 <= commission <= base, and it never falls when the base grows |
| Commission.PercentIsExactRounding | apps/scheduling/commission_resolution.py:76-81 | up to 10000 basis points the cap never binds: the commission is the exact percentage rounded, within half a cent |
| Commission.CapBindsAboveHundredPercent | apps/scheduling/commission_resolution.py:76-81 | above that the cap does bind on every base of at least 10000 cents |
| Commission.AmountIff | apps/scheduling/commission_resolution.py:76-81 | the amount of either kind is the capped fixed amount or the capped half-even percentage, and no other |
| ChargeRuns.RunIsSafe | apps/billing/services.py:112-616 | over any interleaving of create, emit, cancel, sync, ingest, reprocess and overdue: PAID is never left and CANCELLED only for PAID, at most one payment event per charge, an event implies PAID, announcements of payment <= events, an inbox that owns an event is PROCESSED, the gateway answers at most one registration of each charge |
| ChargeRuns.StepIsSafe | apps/billing/services.py:841-947 | the same for one service call |
| ChargeRuns.AddPartsIsSafe | apps/billing/services.py:378-418 | the part-by-part creation keeps it at every part |
| ChargeRuns.AddPartsOnlyAppends | apps/billing/services.py:378-418 | a creation that fails midway leaves only used ids and the registrations of the vanished parts |
| Payments.AgreeThroughoutIff | apps/billing/services.py:266-947 | in every state of a run PAID, one event and one announcement agree if and only if no step of it leaves a charge PAID by a lookup |
| Payments.StepAgreesIff | apps/billing/services.py:266-947 | the same for one step, on its arguments: an emission, a fully stored creation, or a callback whose lookup reports PAID on a charge neither PAID nor CANCELLED |
| Payments.RunsAgree | apps/billing/services.py:266-947 | so they agree at the end of every run without such a step |
| Payments.EmissionCanLeaveUnrecorded | apps/billing/services.py:266-288 | and every charge that can be emitted and has no boleto can be left PAID, not recorded and not announced |
| Announcements.FirstRecordAnnouncesIff | apps/billing/services.py:562-947 | for every safe state and every step that records the first payment of a charge: it is announced, once and in every continuation, if and only if the step is a sync or a callback applied to a charge that was not PAID after its own lookup; otherwise never |
| Announcements.StepAnnouncesIff | apps/billing/services.py:562-947 | the step itself: only syncs and callbacks, fresh or reprocessed, with or without a lookup, record |
| Announcements.CallbackAnnouncesIff | apps/billing/services.py:781-933 | every fresh callback that pays the amount leaves the charge PAID with one event, and adds one announcement exactly when the charge was not PAID when its payload was applied |
| Announcements.LightCallbackIsNeverAnnounced | apps/billing/services.py:781-933 | a callback that pays a charge already PAID but not recorded, or set PAID by its own lookup, is recorded, and no later run ever announces it |
| Announcements.RecordedStaysFinal | apps/billing/services.py:291-947 | once a payment is recorded no run adds an announcement for it |
| Announcements.SyncRepairs | apps/billing/services.py:562-616 | PAID without an event, as enrichment leaves it, is repaired by a sync that comes before the next payment callback |
| GatewayKeys.KeysDistinctIff | apps/billing/services.py:291-490 | over every run the gateway sees each idempotency key at most once if and only if no step registers a key whose registered row has vanished or whose answer was lost |
| GatewayKeys.StepRepeatsIff | apps/billing/services.py:291-490 | the same for one step |
| GatewayKeys.StepLogsNewKeys | apps/billing/services.py:112-169 | the keys the gateway receives in a step, answered or not, read off the rows before it and its arguments |
| PlanReach.AddPartsReach | apps/billing/services.py:378-418 | a creation registers its parts in order up to the first taken key or missing answer, under consecutive ids; it fails exactly when it stops early, and the stored rows are as the answers leave them |
| PlanReach.PlanReaches | apps/billing/services.py:291-418 | all parts of a new plan stay stored, or none, and the gateway keeps what it received |
| PlanReach.PlanIsStored | apps/billing/services.py:329-418 | after a successful creation row i has the amount of share i, the month i after the first, its own key, control number and answer, and one group exactly when there are several; instalments sum to the amount and other parts repeat it |
| PlanReach.NewPlanIff | apps/billing/services.py:329-376 | which requests under a free key are refused before the first registration, and why |
| GatewayKeys.FailsMidwayIff | apps/billing/services.py:376-418 | a creation raises after the gateway registered something if and only if its request passes every check, the first part is received, and some part gets no answer or finds its key taken |
| GatewayKeys.VanishesIff | apps/billing/services.py:291-490 | a registered row vanishes in exactly these creations |
| GatewayKeys.KnownIff | apps/billing/services.py:112-169 | the service stops knowing a registration in exactly these and in emissions whose answer is lost |
| GatewayKeys.LostEmissionForgets | apps/billing/services.py:132-135 | such an emission leaves the row as it was, and emitting it again registers its key again |
| GatewayKeys.KeysStayDistinct | apps/billing/services.py:291-490 | so over runs without them the gateway sees each key at most once |
| GatewayKeys.ForgottenKeyRepeats | apps/billing/services.py:291-490 | after a key is forgotten and any run, the next step that registers it makes the gateway register it twice |
| GatewayKeys.RetryRegistersTwice | apps/billing/services.py:376-418 | so for every creation that fails midway, any run, and the next request under its key that the gateway receives |
| GatewayKeys.ReplayIsNoOp | apps/billing/services.py:291-327 | creating again under the key of a registered charge succeeds and changes nothing, after any run |
| Webhooks.CallbacksConverge | apps/billing/services.py:863-933 | any list of final callbacks with fresh keys about one charge ends in PAID if it began so or one payment matches, else CANCELLED if it began so or one cancels, else the last lifecycle status |
| Webhooks.OutcomeIgnoresOrder | apps/billing/services.py:863-933 | the first two outcomes do not depend on the order of the effects |
| Webhooks.DeliveriesCommute | apps/billing/services.py:666-933 | two deliveries of the same callbacks in different orders leave the charge in the same status when it was settled before, or one of them pays or cancels |
| Webhooks.OneCallback | apps/billing/services.py:841-933 | one fresh callback applies its effect to its charge and to no other row |
| Webhooks.ReingestIsNoOp | apps/billing/services.py:690-708 | ingesting a known key again changes nothing, in any later state and whatever the payload says |
| ChargeCalls.CancelIff | apps/billing/services.py:493-559 | exactly when a cancellation succeeds, what it changes, and that repeating it changes nothing |
| ChargeCalls.SyncIsIdempotent | apps/billing/services.py:562-616 | polling twice with one answer is polling once |
| ChargeCalls.SyncRecordsIff | apps/billing/services.py:562-616 | a sync records a payment if and only if it leaves the charge PAID with none recorded, and exactly when it leaves it PAID |
| ChargeCalls.OverdueIff | apps/billing/services.py:222-263 | the job makes OVERDUE exactly the open, past-due charges of its batch, and repeating it changes nothing |
| ChargeOutcomes.RegisteredRow | apps/billing/services.py:112-169 | the status of a registered charge: REGISTERED with artifacts, and otherwise the first PAID or CANCELLED that at most three lookups name, else the last status they name; nothing but artifacts and a missing control number changes besides |
| ChargeOutcomes.EmitOutcome | apps/billing/services.py:421-490 | the emission of a stored charge for every row and answer |
| ChargeOutcomes.SyncOutcome | apps/billing/services.py:562-616 | the status a sync leaves as a table (PAID and CANCELLED stay, else the answer, else OVERDUE for an open one past due), the event with its amount, the announcement, and every refusal |
| ChargeOutcomes.FindChargeIff | apps/billing/services.py:754-778 | which charge a callback is about: by reference first, then by id, then by control number |
| ChargeOutcomes.CallbackOutcome | apps/billing/services.py:781-933 | what a callback leaves, with and without its own lookup: the status as a table, the stored payload, the event with its amount, the announcement and the inbox |
| ChargeOutcomes.IdleCallback | apps/billing/services.py:841-860 | a callback about no charge fails, and a processed one is left alone |
| ChargeOutcomes.IngestOutcome | apps/billing/services.py:690-708 | a new key is stored and processed, a known one answered |
| ChargeOutcomes.StoredKeyOutcome | apps/billing/services.py:307-327 | a creation under a stored key: the whole group in order, the emission of an unknown charge, or the charge |
| BillingServices.BillingService.EnrichBoletoArtifacts | apps/billing/services.py:266-288 | at most three lookups, stopping at the artifacts |
| BillingServices.BillingService.Register | apps/billing/services.py:112-169 | registers, stores and announces, or changes nothing |
| BillingServices.BillingService.EmitPendingCharge | apps/billing/services.py:421-490 | only PENDING or FAILED without a reference is emitted; a refusal restores the row |
| BillingServices.BillingService.RegisterParts | apps/billing/services.py:378-418 | inserts and registers the parts in order up to the first failure |
| BillingServices.BillingService.CreateCharge | apps/billing/services.py:291-418 | replay, emission of a stored row, or a whole plan; a failure rolls the rows back |
| BillingServices.BillingService.CancelCharge | apps/billing/services.py:493-559 | PAID and FAILED are refused, CANCELLED is a no-op |
| BillingServices.BillingService.SyncChargeFromGateway | apps/billing/services.py:562-616 | the merged status, and one event with the first positive amount when none exists |
| BillingServices.BillingService.MarkOverdueCharges | apps/billing/services.py:222-250 | the past-due open charges of the batch and nothing else |
| BillingServices.BillingService.SettleInbox | apps/billing/services.py:863-933 | payment, mismatch or lifecycle branch on a known charge |
| BillingServices.BillingService.EnrichWebhookFromGateway | apps/billing/services.py:781-830 | the completed payload and what the lookup says of the charge |
| BillingServices.BillingService.ProcessWebhookInbox | apps/billing/services.py:841-933 | a PROCESSED inbox is left alone; every other outcome as specified |
| BillingServices.BillingService.IngestGatewayWebhook | apps/billing/services.py:666-708 | a known key returns its inbox, a new one is stored and processed |
| BillingServices.BillingService.ReprocessWebhook | apps/billing/services.py:936-947 | processes again unless PROCESSED |
| Plan.PlanIsWellFormed | apps/billing/services.py:70-109 | every accepted plan pairs positive amounts with strictly increasing monthly dates; instalments sum to the total, a recurrence repeats it and, counted from an end date, stops there |
| Plan.PlanExistsIff | apps/billing/services.py:70-109 | when there is a plan and how many parts it has, with every refusal |
| Plan.SplitIsFair | apps/billing/schedule.py:17-24 | the parts sum to the total, never increase and differ by at most one cent |
| Plan.SplitAmountCents | apps/billing/schedule.py:17-24 | the in-place loop over the array computes those shares |
| Plan.PartsReachMinimum | apps/billing/amount_rules.py:10-16 | the minimum is checked on the total only: every part reaches it if and only if the total is at least parts times the minimum |
| Plan.PartBelowMinimum | apps/billing/services.py:70-109 | 250 cents in 48 parts is accepted with parts of 5 cents |
| Plan.DueDatesAreMonthly | apps/billing/schedule.py:27-28 | the series exists exactly when its last date does, and date i is i months after the first |
| Plan.ResolveOccurrencePlan | apps/billing/services.py:70-109 | the plan of a request, with every refusal |
| Plan.CountStopsAtEnd | apps/billing/schedule.py:31-40 | the last counted date is not after the end |
| Plan.ControlNumbersAreDistinct | apps/billing/schedule.py:43-48 | control numbers have 1 to 15 characters and differ between parts of a plan |
| Plan.ControlNumberIs | apps/billing/schedule.py:43-48 | a control number is as much of the stem as fits, a dash, and the padded number of the part |
| Plan.PartKeysAreDistinct | apps/billing/services.py:379-381 | the keys of the parts of a plan differ |
| Plan.NormalizeSeuNumero | apps/billing/services.py:61-67 | an accepted control text has 1 to 15 characters |
| Calendar.ShiftIsExact | apps/billing/schedule.py:9-14 | month arithmetic is exact: the right month, and the first day clamped to that month without drift |
| Calendar.ShiftIsUnique | apps/billing/schedule.py:9-14 | validity, month and clamped day determine the date |
| Calendar.ShiftIncreases | apps/billing/schedule.py:27-28 | later offsets give strictly later dates |
| Calendar.OccurrencesAreInitial | apps/billing/schedule.py:31-40 | the offsets whose date is not after the end are an initial segment, so counting them is walking them |
| Calendar.CountMonthlyOccurrences | apps/billing/schedule.py:31-40 | the loop returns the number of i in [0, 60) whose date is not after the end |
| Calendar.CountRaisesInDecember9999 | apps/billing/schedule.py:31-40 | it raises although one date fits, because it computes the date after the last one |
| Calendar.CountOverflowsIff | apps/billing/schedule.py:31-40 | it raises so if and only if the end lies in December 9999, the first day is no later in the month, and the first date is at most 59 months earlier |
| Issuance.RunIsConsistent | apps/issuance/services.py:103-409 | over every run the log is a path in the table ending at the status, each kind of outbox message counts the entries into its status, AUTHORIZED and CANCELLED are entered at most once, committed emissions never exceed entries into QUEUED, every status past tax resolution holds a rule and its parameters, and no service rests in DRAFT, PENDING_TAX or SUBMITTING |
| Issuance.CreatedIsConsistent | apps/issuance/services.py:66-197 | creation starts such a run, whatever the tax resolution answers |
| Issuance.CreateOutcome | apps/issuance/services.py:66-197 | what creation stores, logs and announces for each tax outcome |
| Issuance.ReprocessOutcome | apps/issuance/services.py:352-409 | from REJECTED or FAILED a resolved rule replaces snapshot and parameters, clears the rejection and queues with one message and two log rows; a refusal stores its code and keeps the rest; any other status is refused |
| Issuance.EnteredOnce | apps/issuance/fsm.py:4-28 | along any path of the table AUTHORIZED was entered exactly when the path ends in AUTHORIZED or CANCELLED, and then once |
| Issuance.StepIsConsistent | apps/issuance/services.py:200-409 | every service keeps it |
| Issuance.WebhookIsConsistent | apps/issuance/focus_webhook.py:111-186 | the webhook keeps it |
| Issuance.ProcessOutcome | apps/issuance/services.py:200-268 | a returned emission walks exactly two or three edges, stores the reference and counts once; anything else changes nothing but the count of calls |
| Issuance.CancelIff | apps/issuance/services.py:271-349 | a cancellation succeeds if and only if the justification, status, reference and confirmation allow it; otherwise nothing changes |
| Issuance.VisitEmitsOnceIff | apps/issuance/services.py:200-268 | in one visit to QUEUED the provider receives at most one emission if and only if no received emission of the visit follows a raised one |
| Issuance.LeavesIff | apps/issuance/services.py:200-268 | what ends a visit: a returned emission or a new webhook with a known word |
| Issuance.EmissionsWithinEntries | apps/issuance/services.py:200-268 | over every run in which no visit repeats an emission after a raise, received emissions never exceed entries into QUEUED |
| Issuance.UnraisedEmissionsWithinEntries | apps/issuance/services.py:200-268 | in particular from creation, over every run without a raise |
| Issuance.AttemptsAreBounded | apps/issuance/services.py:200-268 | every emission the provider received was committed or raised, and the committed ones are bounded by the entries into QUEUED |
| Issuance.RaisedEmissionsRepeat | apps/issuance/services.py:200-232 | a raise after the call leaves QUEUED and no trace, so one visit allows any number of emissions |
| Issuance.WebhookFollowsVerdict | apps/issuance/focus_webhook.py:96-186 | from every status the webhook takes only allowed edges and ends where an independent table says: the handler of its transition error is unreachable |
| Issuance.WebhookOutcome | apps/issuance/focus_webhook.py:73-186 | the whole effect of a delivery: reference, edges, messages, rejection code and the remembered delivery |
| Issuance.PollOutcome | apps/issuance/polling.py:25-102 | the poller on every status and answer |
| Issuance.PollerAgreesWithWebhook | apps/issuance/polling.py:46-102 | with a reference, on POLLING and AUTHORIZED, polling a status and receiving it lead to the same status, log and messages |
| Issuance.MissingReferenceDiffers | apps/issuance/polling.py:20-33 | without a reference, on POLLING and AUTHORIZED, they differ if and only if the issue is POLLING or the word says cancelled |
| Issuance.RunKeepsReference | apps/issuance/services.py:233-235 | while every returned emission brings a reference no issue on POLLING or AUTHORIZED lacks one, so that difference is in a defensive branch |
| Issuance.WebhookReplayIsNoOp | apps/issuance/focus_webhook.py:73-86 | a processed delivery changes nothing, after any run |
| IssuanceServices.NfIssue.Take | apps/issuance/fsm.py:31-54 | one edge and one log row, or a refusal that changes nothing |
| IssuanceServices.NfIssue.Announce | apps/issuance/services.py:247-260 | the edge and its outbox message together |
| IssuanceServices.NfIssue.ApplyTax | apps/issuance/services.py:105-194 | the three outcomes of tax resolution |
| IssuanceServices.NfIssue.CreateNfIssue | apps/issuance/services.py:66-197 | a new issue |
| IssuanceServices.NfIssue.ReprocessNfIssue | apps/issuance/services.py:352-409 | only from REJECTED or FAILED |
| IssuanceServices.NfIssue.ProcessQueuedIssue | apps/issuance/services.py:200-268 | emission, with the rollback of a raise |
| IssuanceServices.NfIssue.CancelNfIssue | apps/issuance/services.py:271-349 | every refusal in order, then CANCELLED |
| IssuanceServices.NfIssue.PollNfIssueStatus | apps/issuance/polling.py:20-102 | the poller |
| IssuanceServices.NfIssue.Advance | apps/issuance/focus_webhook.py:33-38 | QUEUED and SUBMITTING are walked to POLLING |
| IssuanceServices.NfIssue.ApplyStatus | apps/issuance/focus_webhook.py:111-186 | the three groups of provider words |
| IssuanceServices.NfIssue.IngestFocusWebhook | apps/issuance/focus_webhook.py:41-108 | reference, replay and delivery |
| TaxEngine.MatchIsFirstCandidate | apps/fiscal/tax_engine.py:153-194 | a match by code is a rule of the published catalog, with the profile, place and regime, in force on the date, for the first candidate any such rule carries; every other such rule with that code has a greater priority number, or the same and an earlier start; EXACT if and only if it is the requested code |
| TaxEngine.FallbackIffNational | apps/fiscal/tax_engine.py:196-225 | otherwise a rule in force of any code, with no lesser priority number and no later start at the same one, if and only if the fallback is on, the code is in the national list and some rule is in force; else not found |
| TaxEngine.MatchIsFirstOffered | apps/fiscal/tax_engine.py:173-194 | its code is the first of the offered texts, trimmed, that any rule in force carries |
| TaxEngine.OfferedTexts | apps/fiscal/tax_engine.py:71-105 | those texts, in the order of the code |
| TaxEngine.InNationalIff | apps/fiscal/tax_engine.py:196-213 | when the code is in the national list |
| TaxEngine.DraftCalls | apps/fiscal/tax_engine.py:19-68 | adding a rule, ticking the checklist, publishing and creating: when each succeeds and what it does to every row |
| TaxEngine.MatchIgnoresRowOrder | apps/fiscal/models.py:130-143 | by the natural key, a match by code does not depend on the order of the rows |
| TaxEngine.FallbackIgnoresRowOrderIff | apps/fiscal/tax_engine.py:214-216 | when the fallback answers, it answers alike for every order of the rows if and only if one rule in force has a lesser priority number than every other, or the same and a later start |
| TaxEngine.FallbackTies | apps/fiscal/tax_engine.py:214-216 | without such a rule the rows can be listed so that it answers another one |
| TaxEngine.CandidatesAreTrimmedTexts | apps/fiscal/tax_engine.py:71-105 | the candidates are the non-empty trimmed texts offered, each once |
| TaxEngine.RepetitionsDoNotMatter | apps/fiscal/tax_engine.py:71-105 | dropping repetitions changes neither the rule found nor the order of search |
| TaxEngine.CatalogSettlesResolution | apps/fiscal/tax_engine.py:153-225 | with the national list fixed, any run that ends with the same catalog published answers every query as before |
| TaxEngine.DraftingKeepsResolution | apps/fiscal/tax_engine.py:34-49 | no run of catalog creations, rules and checklist edits changes an answer |
| TaxEngine.RunKeepsFrozen | apps/fiscal/tax_engine.py:19-49 | the rules of a catalog that has left DRAFT never change, and SUPERSEDED is final |
| TaxEngine.RunIsSound | apps/fiscal/models.py:61-75 | over every run at most one catalog is published, versions increase, and natural keys are unique |
| TaxEngine.PublishTakesOver | apps/fiscal/tax_engine.py:52-68 | a publish succeeds exactly on a draft with a complete checklist; then that catalog is the published one and the earlier one never again |
| TaxEngineServices.TaxRuleStore.CreateCatalog | apps/fiscal/tax_engine.py:24-39 | a draft above every version |
| TaxEngineServices.TaxRuleStore.AddRule | apps/fiscal/tax_engine.py:42-49 | drafts only, natural key unique |
| TaxEngineServices.TaxRuleStore.PublishCatalog | apps/fiscal/tax_engine.py:52-68 | checklist, supersede, publish |
| TaxEngineServices.TaxRuleStore.ServiceCodeCandidates | apps/fiscal/tax_engine.py:71-105 | the appending loop builds the candidate list |
| TaxEngineServices.TaxRuleStore.ResolveTaxRuleDetailed | apps/fiscal/tax_engine.py:153-225 | the search over the candidates and the fallback |
| TaxEngineServices.TaxRuleStore.UpdateChecklist | apps/fiscal/views.py:41-54 | drafts only |
| RtcAssessment.BaseIsNearExact | apps/fiscal/rtc_assessment.py:43-96 | the base is within 1.5 cents of the base with nothing rounded in the test year and within half a cent later, for deductions in whole cents; within one cent more for any others |
| RtcAssessment.AssessmentIs | apps/fiscal/rtc_assessment.py:43-96 | every field of an assessment from its inputs: each tax rounded from its own rate, and what leaves the base |
| RtcAssessment.RatesAre | apps/fiscal/rtc_assessment.py:31-40 | the rates of each period from the settings |
| RtcAssessment.BaseInRange | apps/fiscal/rtc_assessment.py:43-96 | it lies between 0 and the service amount |
| RtcAssessment.TransitionBaseIsMonotone | apps/fiscal/rtc_assessment.py:43-96 | from 2027 a larger amount never lowers it |
| RtcAssessment.TestBaseNearlyMonotone | apps/fiscal/rtc_assessment.py:43-96 | in the test year a larger amount lowers it by at most two cents |
| RtcAssessment.TestBaseFallsByTwoCents | apps/fiscal/rtc_assessment.py:43-96 | and the two cents are reached |
| RtcAssessment.TestBaseKeptIff | apps/fiscal/rtc_assessment.py:43-96 | exactly when it does not fall: there is no base to lose, or the rounded taxes rise by no more than the amount |
| RtcAssessment.TestBaseIsMonotoneWhen | apps/fiscal/rtc_assessment.py:43-96 | it does not when the rise less its exact taxes is at least two cents, or at most one rate is not zero |
| RtcAssessment.TaxesWithinBase | apps/fiscal/rtc_assessment.py:31-96 | IBS is the sum of its shares, and the taxes stay within the base while the rates sum to less than three quarters, or less than one in the test year |
| RtcAssessment.TaxBoundsAreSharp | apps/fiscal/rtc_assessment.py:14-19 | at these sums rounded taxes exceed a base of two cents and of one cent |
| RtcAssessment.DefaultTaxesWithinBase | apps/fiscal/rtc_assessment.py:31-40 | the default rates are such |
| RtcAssessment.TaxesAreNearExact | apps/fiscal/rtc_assessment.py:69-96 | each tax is its own rate of the base, within half a cent |
| RtcAssessment.DefaultRates | apps/fiscal/rtc_assessment.py:31-40 | the default rates of each period |
| RtcAssessment.ToCentsIsHalfUp | apps/fiscal/rtc_assessment.py:14-19 | the integer rounding of the model is the decimal one |
| Rounding.HalfUpIsNearest | shared/money.py:8-12 | half-up rounding as a characterisation: nearest, ties away from zero |
| Money.PrintParseRoundTrip | shared/money.py:21-37 | for every integer: printing fails exactly beyond 28 digits; a positive amount parses back to itself, zero and negative amounts are refused for their own reasons |
| Money.GroupsOfThree | shared/money.py:21-31 | the printed integer part is the plain numeral with a point before every third digit |
| Money.PrintedNormalizes | apps/billing/admin_form_fields.py:61-83 | the rewrites of the parser turn the printed text into the plain amount |
| Money.PrinterIsInjective | shared/money.py:34-37 | different amounts print differently |
| Money.PlainAmounts | apps/billing/admin_form_fields.py:61-83 | an amount without thousands: a point or a comma before one or two decimals, and nothing else |
| Outbox.RunIsSound | apps/ops/dispatcher.py:13-61 | over every run from the empty table: at most 8 handler runs per message and none for nf_issue.queued, DEAD if and only if 8 runs raised, attempt k no earlier than the first availability plus its waiting time, nothing left PROCESSING |
| Outbox.DispatchOutcome | apps/ops/dispatcher.py:16-61 | one claim for every message, clock and handler outcome |
| Outbox.AttemptsAreSpaced | apps/ops/dispatcher.py:46-51 | that waiting time in seconds: 15 * k * (k - 1) |
| Outbox.SettledIsFinal | apps/ops/dispatcher.py:26-30 | PROCESSED and DEAD messages never change |
| Outbox.BoundsAreReached | apps/ops/dispatcher.py:39-61 | eight claims at exactly those instants all run and the last kills the message: neither bound can be improved |
| Outbox.Dispatcher.ClaimAndDispatch | apps/ops/dispatcher.py:16-61 | the claim, step by step, with every answer |
| Outbox.Dispatcher.EnqueueOutbox | apps/ops/services.py:8-25 | a pending message available at once |
| Channel.RunIsSound | apps/channel/services.py:12-60 | over every run with a clock that never runs backwards, sessions of one phone are created more than five seconds apart |
| Channel.WindowBound | apps/channel/services.py:32-43 | a window of L holds at most 1 + L div 5 s creations of one phone |
| Channel.BurstCreatesOne | apps/channel/services.py:12-60 | messages of one phone each at most five seconds after the last create at most one session, however many |
| Channel.IngestTakesMessage | apps/channel/services.py:21-60 | one session takes the message and no other changes; a new one if and only if the key is unknown and no recent collecting session of the phone exists |
| Channel.IngestOutcome | apps/channel/services.py:21-60 | which session takes the message and what it keeps: by key, else the latest recent one, else a new one |
| Channel.ChannelService.IngestInboundMessage | apps/channel/services.py:12-60 | known key, recent session or new session |

## Left out

- Time zones: a professional has a fixed offset from UTC; daylight saving and the zone database are not modelled.
- Commission.CommissionBounds: exact rationals with half-even rounding stand for the float product of the code.
- RtcAssessment.BaseIsNearExact: the 28-digit decimal context is not modelled there, so amounts near 10^26 reais are outside the claim.
- Money.PrintParseRoundTrip: text is trimmed and digits recognised for ASCII only; the form's other parsers are not modelled.
- Plan.NormalizeSeuNumero: white space is ASCII.
- Charges.FindCharge: looks up by reference, id or control code in order of id; the database picks the first of its own order, and a text that is no id is refused there in another way.
- GatewayKeys.RetryRegistersTwice: whether the gateway itself refuses a repeated key is outside the model.
- GatewayKeys.FailsMidwayIff: the 128 characters of the key column are not modelled, so a key whose part key no longer fits, which fails a multi-part creation midway on its database error, is outside the steps.
- Payments.StepAgreesIff: a lookup that raises anything but a gateway error rolls its call back; after a registration this is a lost answer, elsewhere it changes nothing and is not a step.
- BillingServices.BillingService.MarkOverdueCharges: the ordered, limited query is a given set of ids.
- BillingServices.BillingService.CancelCharge: the table of gateway motives is a flag; the stored message lines are not kept.
- Issuance.WebhookReplayIsNoOp: a delivery is its reference, status and payload hash as a triple; the code joins them into one text and cuts the hash to 16 characters.
- Issuance.RunIsConsistent: one issue; the idempotency key of creation, the search of the issue by reference and the synchronous mode (which composes the same calls) are not modelled. The rejection code is kept as the word, not in upper case.
- Issuance.AttemptsAreBounded: artifacts and the forensic refresh after an emission are part of what may raise.
- IssuanceServices.NfIssue.CancelNfIssue: the actor is the API and the two messages of an unconfirmed cancellation are one error.
- TaxEngine.MatchIsFirstCandidate: the payload of a rule is one number; the catalog is read at the call, so stale objects in memory are not modelled.
- TaxEngine.FallbackTies: rows that tie are taken in the order given.
- Outbox.RunIsSound: `raises` says whether the handler raised; what handlers send is not modelled, nor the periodic search for due messages.
- Channel.BurstCreatesOne: requires a phone without a colon, as E.164 numbers are; with one, two phones could share a key.
- Channel.RunIsSound: session statuses are changed by administrators only; such edits are not steps.
- Scheduling.SchedulingService.Transition: the outbox messages of status changes and their texts are not modelled.
- Scheduling.SchedulingService.ListAvailabilitySlots: the API limits the interval to 5 to 120 minutes; the model takes any interval for which the loop ends.
- Gateway, provider, storage, mail and phone calls: a step carries the answer. HTTP, credentials, signatures, permissions, row-level security, admin edits and the user interface are not modelled.
- Several tenants and concurrency below one transaction: calls are serialised, including the sync that takes no row lock.
- National list import, cadastral mapping, certificates, PDF and hashes: independent of the properties above.
