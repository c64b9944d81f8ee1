# Classora back office: a verified model

Classora runs schools' enrollments, attendance, billing, teacher pay and sales leads as database
transactions over tables. This project models the parts whose tables have to stay in step, and
proves what they keep over every sequence of commands.

Every component has the same shape. Tables are sequences or maps in a datatype; a command is a
function that either refuses or returns the new tables; a class holds the tables as fields, and its
methods write row by row, restore what they saved when a step fails, and are proved to do exactly
what the function says. The lemmas are about the functions, their runs, and the queries over them; the
`*Decisions` modules and `CompensationRows` say of every command, in terms of the rows alone, exactly
when it is accepted and what it leaves.

| files | what they model |
|---|---|
| `Collections`, `Ordering`, `Marks` | SQL sums, filters and ORDER BY; the marks of an attendance record |
| `Billing*` | the append-only ledger: invoices, payments, allocations, refunds, reversals, credit notes, voids; the as-of projection; idempotency keys; row locks |
| `Attendance*` | sheets, records, makeup entitlements and makeup bookings |
| `AuditPaging` | one audit page merged from two independently cursored sources |
| `Enrollment*`, `CrmHistory` | capacities, uniqueness, lineage, event history and pause dates |
| `Crm*` | leads, trial bookings and conversion, driving the enrollment tables |
| `JsonbOrder`, `Import*` | the order of keys in jsonb and in JavaScript; the bulk validator, the writers it predicts, and the batch with its savepoint |
| `Compensation*` | generation of teacher pay, its canonical recheck, and the statements |
| `Csv` | the CSV printer and a reader for section 2 of RFC 4180 |

A transaction's surroundings (its timestamp, the date, generated ids, and tables that other
services own) are parameters of the command, different for each call. Times and dates are integers,
ids are natural numbers, amounts are unbounded integers of dong.

## Behaviour worth knowing

These follow from the code; the members named state them. Where a property one would expect fails,
one member gives its exact condition and another a concrete input.

- An enrollment created as ACTIVE or TRIAL writes two events in one transaction, with one timestamp
  and random ids; the history is shown ordered by timestamp and id, so the two may appear swapped.
  The last event shown always tells the current status; the statuses chain if and only if the two
  ids happen to be in order (`CrmHistory.HistoryShown`, `EnrollmentHistory.CreationShownSwapped`).
- A batch that allocates a payment is checked against what was allocated before, not against what
  was refunded out of the unallocated rest. Recording 100, refunding 100 and allocating 100 is
  accepted and leaves a credit of -100 (`BillingCredit.CreditOverdrawn`). Along a run no live
  payment's credit is ever negative if and only if every accepted first-time batch also left room for
  those refunds (`BillingCredit.CreditHeldExactly`).
- The database alone would let a paid invoice be voided (`BillingSafety.DatabaseAloneUnsafe`), a
  payment be refunded twice over (`BillingSafety.DatabaseAloneRefundsTwice`) and a credit note be
  issued beyond the outstanding amount (`BillingSafety.DatabaseAloneOvercredits`). Blank reasons of
  reversals and credit note voids, on the other hand, pass the service and are refused by the database
  (`BillingRuns.ReversalRefusedExactly`, `BillingRuns.VoidRefusedExactly`).
- Generated pay cuts the seconds off start and end before subtracting, while the recheck rounds the
  exact duration; they agree if and only if the seconds of end and start differ by at least -30 and
  less than 30 (`CompensationRecheck.MinutesAgree`). The services that write session times accept
  hours and minutes only, and then a generated period always passes its recheck
  (`CompensationPeriods.WholeMinutesCanonical`); a row with seconds, which the column type allows, can
  make it fail (`CompensationCases.SkewedNotCanonical`).
- Fixed-class pay is looked up by overlap with the period and rechecked by the completion day; the
  two agree if and only if each such agreement is in force on the day its class completed
  (`CompensationRecheck.FixedCanonical`). The insert trigger refuses exactly the other case
  (`CompensationGuards.FixedItemAccepted`), so that one such agreement blocks its period
  (`CompensationCases.EndedEarlyRefused`).
- An hourly session that earns less than half a dong rounds to nothing, which a check on the item
  refuses (`CompensationCases.HalfDongRefused`); with a claim of another period these are all the ways
  a generation fails in the database (`CompensationPeriods.RefusedExactly`).
- The stored mapping of an import comes back from jsonb with its columns in another order, shorter
  names first, and is compared as text. Submitting an unchanged mapping keeps a validated batch if and
  only if, array indices aside, the file's headers already stand in that order
  (`ImportBatches.UnchangedKeptExactly`); the columns studentCode, classCode do not, and send it back
  to UPLOADED (`ImportEnrollments.OwnMappingResets`).
- A makeup booked into a sheet without a record for the student writes an UNMARKED record, one that
  converts a roster record writes MAKEUP (`AttendanceSafety.BookWrites`), and a rebooking writes MAKEUP
  in both cases (`AttendanceSafety.RebookWrites`). Booking an expired entitlement sets it EXPIRED and
  rolls that back with the refusal (`AttendanceSafety.ExpiredNeverBooked`).
- An import row repeats an earlier one when their student and class codes read alike joined by a bar.
  Without a bar in a student code that means the same pair (`ImportDecisions.SamePairExactly`); with
  one, rows of different pairs can collide (`ImportDecisions.BarredCodesRepeat`).
- Correcting one record to excused looks at the whole session again: another student's excused
  absence that earned nothing while on trial is entitled too, once the enrollment is on trial no more
  (`AttendanceDecisions.CorrectionGrants`).
- Transferring a PAUSED enrollment leaves the pause date on the WITHDRAWN row and the PAUSED row that
  continues it without one (`EnrollmentPauses.PauseDateMisplaced`). At the end of a run the pause date
  is set on exactly the PAUSED rows if and only if no accepted call transferred a PAUSED one
  (`CrmHistory.PausedIffDated`).

## Model

| member | source | states |
|---|---|---|
| `BillingRuns.ReachableInvoice` | apps/api/src/billing/billing-ledger.ts:73-84 | in every reachable ledger, paid, credit and outstanding of every invoice are non-negative and add up to its total; a draft has neither paid nor credit; a void invoice has no paid; any other reads PAID exactly when nothing is outstanding |
| `BillingRuns.VoidForever` | apps/api/src/billing/billing.service.ts:902 | once void, an invoice stays void and unpaid through every later refund, reversal and credit note |
| `BillingRuns.CommandGuarded` | apps/api/prisma/tenant/migrations/20260929000000_local_08_billing_invariants/migration.sql:202-449 | every row an accepted command writes passes the database's unique and foreign keys, column checks and triggers, and the service's own checks, at the moment it is written |
| `BillingRuns.RunSafe` | apps/api/src/billing/billing.service.ts:330-887 | every run keeps the ledger linked and every invoice settled |
| `BillingSafety.PaidIsNet` | apps/api/src/billing/billing-ledger.ts:4-16 | ledger-paid, a difference of two joined sums, is the sum over the invoice's live allocations of what each still holds |
| `BillingSafety.EffectSafe` | apps/api/src/billing/billing.service.ts:529-887 | each single row that passes both the database's and the service's checks keeps balances covered, linked and settled |
| `BillingSafety.DatabaseAloneUnsafe` | apps/api/prisma/tenant/migrations/20260929000000_local_08_billing_invariants/migration.sql:202-231 | the triggers let a paid invoice be voided, which only the service's check prevents |
| `BillingSafety.DatabaseAloneRefundsTwice` | apps/api/src/billing/billing.service.ts:805-812 | no constraint keeps refunds within their payment, only the service's check |
| `BillingSafety.DatabaseAloneOvercredits` | apps/api/prisma/tenant/migrations/20260929000000_local_08_billing_invariants/migration.sql:430-449 | nor credit notes within the outstanding amount |
| `BillingRuns.ReversalRefusedExactly` | apps/api/prisma/tenant/migrations/20260927000000_local_08_billing/migration.sql:94-105 | reversing an unreversed payment fails exactly for a blank reason or a key another reversal has, as the database refuses the row |
| `BillingRuns.VoidRefusedExactly` | apps/api/prisma/tenant/migrations/20260929000000_local_08_billing_invariants/migration.sql:22-35 | voiding an issued note likewise |
| `BillingConservation.RunConserves` | apps/api/src/billing/billing.service.ts:83-139 | in every reachable ledger, paid over all invoices plus available credit plus refunds of live payments equals the live payments |
| `BillingConservation.PaymentSplits` | apps/api/src/billing/billing.service.ts:83-112 | one payment is what it pays, what it still offers and what it refunded |
| `BillingConservation.CreditAgrees` | apps/api/src/billing/billing.service.ts:83-139 | the grouped credit query lists a student exactly when the per-row reduce is positive, with that amount |
| `BillingCredit.CreditMoves` | apps/api/src/billing/billing.service.ts:706-862 | every accepted command moves a payment's available credit by exactly a first-time batch's total, or what a first-time refund's allocations do not give back, or nothing |
| `BillingCredit.CreditHeldExactly` | apps/api/src/billing/billing.service.ts:741-748 | over every run, no live payment's credit is ever negative if and only if each accepted first-time batch satisfied the check with unallocated refunds counted |
| `BillingCredit.CreditOverdrawn` | apps/api/src/billing/billing.service.ts:741-748 | a run of five accepted commands that ends with a credit of -100 |
| `BillingRefunds.TakeSumIsLeast` | apps/api/src/billing/billing.service.ts:805-862 | after k allocations the waterfall has taken the whole refund or all they held, whichever is less |
| `BillingRefunds.OlderExhausted` | apps/api/src/billing/billing.service.ts:805-862 | an allocation is touched only when every older one is emptied |
| `BillingRefunds.UnallocatedIsRest` | apps/api/src/billing/billing.service.ts:83-112 | a payment's unallocated refunds are its refunds less what its allocations gave back |
| `BillingRefunds.LastCheckNeverFails` | apps/api/src/billing/billing.service.ts:805-862 | once the check on prior refunds passes, the later check on the unallocated balance cannot fail |
| `BillingDecisions.RefundedExactly` | apps/api/src/billing/billing.service.ts:795-812 | under a new key a refund is accepted if and only if no reversal names the payment and the refunds so far with this amount do not exceed it; any other is a conflict |
| `BillingDecisions.RefundWrites` | apps/api/src/billing/billing.service.ts:814-887 | it adds its row and splits that come to the lesser of its amount and all the payment's allocations still held; no allocation gives back more than it has, and one gives only when every older one is left empty |
| `BillingDecisions.RefundRepeatedExactly` | apps/api/src/billing/billing.service.ts:787-799 | under a refund's key only its own amount and reason are answered |
| `BillingDecisions.FiguresExactly` | apps/api/src/billing/billing-ledger.ts:4-21 | paid is what allocations of payments that no reversal names still hold after their splits; credit is the issued notes that no void names |
| `BillingDecisions.ReadingExactly` | apps/api/src/billing/billing-ledger.ts:73-84 | in a safe ledger each reading has its exact condition: PAID when nothing is outstanding, PARTIALLY_PAID when something is both paid and outstanding, OVERDUE when issued, unpaid and past due, else the stored status |
| `BillingDecisions.InvoiceCreatedExactly` | apps/api/src/billing/billing.service.ts:529-628 | an invoice is created exactly for a known student with own enrollments, something to charge and discounts within their maxima and the subtotal; its total is the sum of quantity times unit price, or the price or plan, less the discounts |
| `BillingDecisions.StatusMovesExactly` | apps/api/src/billing/billing.service.ts:902 | issued exactly from a draft, voided exactly when issued and unpaid; one status and one history row change |
| `BillingDecisions.PaymentRecordedExactly` | apps/api/src/billing/billing.service.ts:633-674 | under a new key a payment is recorded exactly on an issued invoice of its student that owes at least the amount; it is allocated whole |
| `BillingDecisions.PaymentReads` | apps/api/src/billing/billing.service.ts:633-674 | it lowers the outstanding amount by itself, and the invoice then reads PAID if it owed exactly that, PARTIALLY_PAID otherwise |
| `BillingDecisions.PaymentRepeatedExactly` | apps/api/src/billing/billing.service.ts:903-909 | under a payment's key only its own invoice, amount, method and student are answered |
| `BillingDecisions.UnallocatedRecordedExactly` | apps/api/src/billing/billing.service.ts:676-704 | an unallocated payment is recorded exactly for no student or a known one |
| `BillingDecisions.BatchAcceptedExactly` | apps/api/src/billing/billing.service.ts:706-771 | under a new key a batch is accepted if and only if the payment stands, the items name different invoices, fit together into what is not allocated, and each by itself fits the ledger before the batch: neither order nor the other items matter |
| `BillingDecisions.BatchWrites` | apps/api/src/billing/billing.service.ts:749-771 | it adds one row per item, in the order of the invoices' ids, and nothing else |
| `BillingDecisions.ReversedExactly` | apps/api/src/billing/billing.service.ts:773 | a payment that stands is reversed exactly for a reason and under a key no reversal has |
| `BillingDecisions.ReversalRepeatedExactly` | apps/api/src/billing/billing.service.ts:773 | a reversed one is answered again exactly under its reversal's key |
| `BillingDecisions.NoteDraftedExactly` | apps/api/src/billing/billing.service.ts:330-402 | a credit note is drafted exactly on an issued invoice that owes the amount |
| `BillingDecisions.NoteRepeatedExactly` | apps/api/src/billing/billing.service.ts:349-361 | under a note's key only its own invoice, amount and reason are answered |
| `BillingDecisions.NoteIssuedExactly` | apps/api/src/billing/billing.service.ts:404-458 | a drafted note is issued exactly when its invoice is issued and still owes the amount; only that note changes |
| `BillingDecisions.NoteIssuedAgain` | apps/api/src/billing/billing.service.ts:404-420 | an issued note is answered again exactly until it is void |
| `BillingDecisions.NoteVoidedExactly` | apps/api/src/billing/billing.service.ts:460-500 | a note that nobody voided is voided exactly when issued, for a reason and under a key no void has |
| `BillingDecisions.VoidRepeatedExactly` | apps/api/src/billing/billing.service.ts:460-500 | a void note is answered again exactly for its void's key and reason |
| `BillingDecisions.UnknownNotFound` | apps/api/src/billing/billing.service.ts:330-902 | an invoice, payment or note that is not there is not found |
| `BillingReplay.ReplayWritesNothing` | apps/api/src/billing/billing.service.ts:349-353 | a keyed command whose facts are recorded writes nothing |
| `BillingReplay.BecomesRecorded` | apps/api/src/billing/billing.service.ts:633-676 | an accepted keyed command leaves its facts under its key |
| `BillingReplay.RecordedForever` | apps/api/src/billing/billing.service.ts:706-772 | no later command disturbs recorded facts, a recorded batch included |
| `BillingReplay.SameBatchExact` | apps/api/src/billing/billing.service.ts:722-739 | for a batch without repeated invoices the length-plus-membership test means equal multisets of invoice and amount |
| `BillingReplay.ReuseRejected` | apps/api/src/billing/billing.service.ts:903-909 | a recorded key with another amount, method, student, target, reason or batch is refused; so is a reversal's or void's key for another payment or note |
| `BillingReplay.ExactlyOnce` | apps/api/src/billing/billing.service.ts:633-887 | over every run: replaying an accepted keyed command later changes nothing, and reusing its key otherwise is refused |
| `BillingTimeTravel.PaidInCut` | apps/api/src/billing/billing-ledger.ts:25-47 | the grouped form of historical paid equals the subquery form on the ledger cut at the boundary, also for invoices without any gross row |
| `BillingTimeTravel.CreditInCut` | apps/api/src/billing/billing-ledger.ts:48-55 | the grouped historical credit equals the live credit of the cut ledger |
| `BillingTimeTravel.AsOfIsLiveOfCut` | apps/api/src/billing/billing-ledger.ts:25-69 | reading a ledger as of an instant is reading live the ledger cut there |
| `BillingHistory.CutIsThen` | apps/api/src/billing/billing-ledger.ts:22-24 | for every run, cutting the final ledger at a boundary rebuilds the ledger as it stood after exactly the calls within it |
| `BillingHistory.TimeTravel` | apps/api/src/billing/billing-ledger.ts:22-69 | the as-of projection of the final ledger equals the live projection of the ledger as it then stood: status, paid, credit, outstanding, effective status |
| `BillingHistory.ReadsAsThen` | apps/api/src/billing/billing-ledger.ts:22-69 | for every invoice there after the first k calls, which are those stamped at or before an inclusive boundary or before an exclusive one, the final ledger as of the boundary reads as that ledger did |
| `BillingLocks.PlanIncreasing` | apps/api/src/billing/billing.service.ts:711-761 | every command takes its row locks in one global order, a batch by invoice id and a refund by allocation age |
| `BillingLocks.TriggersNeverWait` | apps/api/prisma/tenant/migrations/20260929000000_local_08_billing_invariants/migration.sql:252-407 | the row locks inside the insert triggers fall on rows the command then holds or has itself just inserted |
| `BillingLocks.CountedIsLocked` | apps/api/src/billing/billing.service.ts:330-902 | whatever an accepted command changes or counts on is among its locks: invoice, payment with all its allocations, note, enrollment, number sequence |
| `BillingLocks.NoCycle` | apps/api/src/billing/billing.service.ts:409-442 | no path of waits returns to its start |
| `BillingLocks.Progress` | apps/api/src/billing/billing.service.ts:645-672 | while some transaction runs, one can proceed |
| `BillingLocks.BillingNeverDeadlocks` | apps/api/src/billing/billing.service.ts:409-902 | however any number of billing commands interleave lock by lock: no row is locked twice, no wait cycle, always progress |
| `BillingServices.PerformedSafe` | apps/api/src/billing/billing.service.ts:529-887 | a performed command is a step of the model and keeps the ledger safe |
| `BillingServices.BillingService.CreateInvoice` | apps/api/src/billing/billing.service.ts:529-628 | checks who owns the enrollments named, prices an invoice without items, adds items and discounts up, and writes the draft or leaves the ledger as it was |
| `BillingServices.BillingService.ChangeStatus` | apps/api/src/billing/billing.service.ts:902 | issues a draft or voids an unpaid issued invoice, with its history row |
| `BillingServices.BillingService.RecordPayment` | apps/api/src/billing/billing.service.ts:633-674 | one payment and one allocation within the outstanding amount, or the recorded one again |
| `BillingServices.BillingService.RecordUnallocatedPayment` | apps/api/src/billing/billing.service.ts:676-704 | one unallocated payment, or the recorded one again |
| `BillingServices.BillingService.AllocatePayment` | apps/api/src/billing/billing.service.ts:706-771 | the whole batch in lock order or nothing |
| `BillingServices.BillingService.ReversePayment` | apps/api/src/billing/billing.service.ts:773 | one reversal per payment |
| `BillingServices.BillingService.SplitRefund` | apps/api/src/billing/billing.service.ts:826-852 | the loop writes exactly the closed-form splits and leaves the closed-form remainder |
| `BillingServices.BillingService.RefundPayment` | apps/api/src/billing/billing.service.ts:775-887 | accepted and written as `BillingDecisions.RefundedExactly` and `RefundWrites` say, or the ledger is left as it was |
| `BillingServices.BillingService.CreateCreditNote` | apps/api/src/billing/billing.service.ts:330-402 | one draft note per key |
| `BillingServices.BillingService.IssueCreditNote` | apps/api/src/billing/billing.service.ts:404-458 | issues a draft note within the invoice's outstanding amount |
| `BillingServices.BillingService.VoidCreditNote` | apps/api/src/billing/billing.service.ts:460-500 | one void per note |
| `AuditPaging.MergeOfLimited` | apps/api/src/audit/audit.service.ts:141-158 | looking n rows into each source decides the first n events of the merge |
| `AuditPaging.NextContinues` | apps/api/src/audit/audit.service.ts:155-168 | what follows a page's two-part cursor is exactly what the page left of the merge, also when a source had no event on the page |
| `AuditPaging.PageStep` | apps/api/src/audit/audit.service.ts:135-169 | a page with more to come is full, hands out a cursor the service accepts back, and leaves exactly the rest |
| `AuditPaging.FollowIsLeft` | apps/api/src/audit/audit.service.ts:135-169 | from any cursor, following to null terminates and lists exactly what was left |
| `AuditPaging.PagingIsMerge` | apps/api/src/audit/audit.service.ts:95-168 | from the first page, for any limits, the pages list exactly the events of either store that are of the caller's tenant, of each field the filter gives and within its times, each once, newest first |
| `AuditPaging.PageHolds` | apps/api/src/audit/audit.service.ts:135-223 | a single page, from any cursor, holds no more than the limit of such events, each beyond the cursor in its own source, and passes none over for an older one |
| `AuditPaging.ListedExactly` | apps/api/src/audit/audit.service.ts:95-134 | a request is answered exactly for the caller's tenant, without a cursor or with one made for the same filter |
| `AuditPaging.LaterPagesStable` | apps/api/src/audit/audit.service.ts:183-223 | events recorded at or newer than what was read change no page still to come |
| `EnrollmentSafety.PerformSound` | apps/api/src/enrollments/enrollments.service.ts:39-116 | every command keeps each class within capacity, operational pairs unique, ended dates exactly on terminal rows, pause dates on paused rows only, but for withdrawn ones that another row continues, lineage sound and histories faithful |
| `EnrollmentSafety.PerformExtends` | apps/api/src/enrollments/enrollments.service.ts:65-116 | no command changes a terminal row, a row's student, class or source, its start once it has one, or an event already written; a row that becomes ACTIVE has a start |
| `EnrollmentPauses.PauseExactly` | apps/api/src/enrollments/enrollments.service.ts:65-89 | from rows whose pause date is set exactly when PAUSED, a command leaves such rows if and only if it is not an accepted transfer of a PAUSED enrollment |
| `CrmHistory.PausedIffDated` | apps/api/src/enrollments/enrollments.service.ts:78-89 | over every run, the pause dates are on exactly the PAUSED rows at the end if and only if no accepted call transferred a PAUSED one |
| `EnrollmentPauses.PauseDateMisplaced` | apps/api/src/enrollments/enrollments.service.ts:78-89 | create, pause, transfer: a dated WITHDRAWN row and an undated PAUSED one |
| `EnrollmentSafety.TransitionExactly` | apps/api/src/enrollments/enrollments.service.ts:65-76 | while classes fit, a transition succeeds exactly when the transition table allows it: its capacity check cannot refuse |
| `EnrollmentDecisions.CreatedExactly` | apps/api/src/enrollments/enrollments.service.ts:39-53 | an enrollment is created exactly for a known student in a known class with a free seat, both active unless it is PENDING, without another that counts there; its row and events written out |
| `EnrollmentDecisions.TransitionedExactly` | apps/api/src/enrollments/enrollments.service.ts:65-76 | each verb succeeds exactly from the statuses listed for it and, into ACTIVE or PAUSED, with a seat beside the enrollment's own |
| `EnrollmentDecisions.TransitionWrites` | apps/api/src/enrollments/enrollments.service.ts:65-76 | each verb ends in its own status, sets or clears start, pause and end, and writes its own kind of event |
| `EnrollmentDecisions.TransferredExactly` | apps/api/src/enrollments/enrollments.service.ts:78-89 | a transfer succeeds exactly while the enrollment counts, to another class that can take the student; source and destination rows and both events written out |
| `EnrollmentDecisions.ReenrolledExactly` | apps/api/src/enrollments/enrollments.service.ts:101-116 | a re-enrollment succeeds exactly from an own enrollment that ended, where a new one could be created |
| `EnrollmentDecisions.SeatsCounted` | apps/api/src/enrollments/enrollments.service.ts:127-128 | the capacity query counts the PENDING, TRIAL, ACTIVE and PAUSED rows of the class, leaving one out |
| `EnrollmentDecisions.UnknownNotFound` | apps/api/src/enrollments/enrollments.service.ts:39-116 | an enrollment, student or class that is not there is not found |
| `EnrollmentSafety.LineageIsForest` | apps/api/src/enrollments/enrollments.service.ts:78-116 | source links end at an enrollment of the same student created outright, terminal unless it is the start |
| `EnrollmentHistory.ShownOrder` | apps/api/src/enrollments/enrollments.service.ts:118 | the display order is the order of writing, except that a creation's two events may be swapped |
| `CrmHistory.HistoryShown` | apps/api/src/enrollments/enrollments.service.ts:118-131 | over every run the last event shown tells the status, and the shown events chain if and only if a creation's two ids ascend |
| `EnrollmentHistory.CreationShownSwapped` | apps/api/src/enrollments/enrollments.service.ts:48-50 | an ACTIVE creation whose second id is the smaller is shown as activated before enrolled |
| `EnrollmentServices.EnrollmentService.CreateInTransaction` | apps/api/src/enrollments/enrollments.service.ts:39-53 | inserts the row and its one or two events, or refuses and changes nothing |
| `EnrollmentServices.EnrollmentService.TransitionInTransaction` | apps/api/src/enrollments/enrollments.service.ts:65-76 | updates status, start, pause and end, and writes one event |
| `EnrollmentServices.EnrollmentService.TransferEnrollment` | apps/api/src/enrollments/enrollments.service.ts:78-89 | inserts the destination, closes the source, writes both events |
| `EnrollmentServices.EnrollmentService.ReenrollInTransaction` | apps/api/src/enrollments/enrollments.service.ts:101-116 | inserts a row linked to a terminal one |
| `CrmSafety.StepConsistent` | apps/api/src/crm/crm-trials.service.ts:31-161 | every CRM or enrollment command keeps leads, bookings and enrollments consistent |
| `CrmSafety.RunSafe` | apps/api/src/crm/crm-trials.service.ts:31-161 | every interleaving of CRM and enrollment commands, capacities never lowered, keeps consistency and the enrollments' soundness |
| `CrmSafety.TrialsTold` | apps/api/src/crm/crm-trials.service.ts:76-104 | at most one booked trial per lead, exactly one if TRIAL_BOOKED, none if LOST; a cancelled trial's enrollment is no trial |
| `CrmSafety.StepMovesLeads` | apps/api/src/crm/crm-shared.ts:79-87 | every status change of a lead is one the transition table allows, whether or not the code consults it |
| `CrmSafety.FinalForever` | apps/api/src/crm/crm-shared.ts:79-87 | WON and LOST leads and terminal enrollments never change again |
| `CrmSafety.BookEnrolls` | apps/api/src/crm/crm-trials.service.ts:31-74 | booking adds a TRIAL enrollment of the student in the session's class and the booking that ties it to the lead, and changes no other row |
| `CrmSafety.CancelUndoesTrial` | apps/api/src/crm/crm-trials.service.ts:76-104 | cancelling never fails after booking: the lead is qualified as before and may book again, the trial withdrawn and dated |
| `CrmSafety.LostNeverFails` | apps/api/src/crm/crm.service.ts:235-266 | losing a lead fails only by the transition table, never in its cancellation loop |
| `CrmSafety.ConversionEnrolls` | apps/api/src/crm/crm-conversion.service.ts:22-69 | all three modes end in an ACTIVE enrollment of the converted student in the chosen class; a trial elsewhere is withdrawn and becomes its source |
| `CrmDecisions.MovedExactly` | apps/api/src/crm/crm-shared.ts:79-87 | a lead is contacted exactly when NEW, and qualified exactly when NEW, CONTACTED, TRIAL_BOOKED or TRIAL_COMPLETED |
| `CrmDecisions.PicksExactly` | apps/api/src/crm/crm.service.ts:421-487 | whom a booking or conversion picks: the student and guardian given, new ones, or those of the lead's latest trial |
| `CrmDecisions.BookedExactly` | apps/api/src/crm/crm-trials.service.ts:31-62 | a trial is booked if and only if the lead is QUALIFIED without a booked one, the session is scheduled, not past and of an active class, and the student picked can be enrolled there |
| `CrmDecisions.BookingWrites` | apps/api/src/crm/crm-trials.service.ts:55-62 | a TRIAL enrollment and a booking of the people picked, and the lead TRIAL_BOOKED |
| `CrmDecisions.CancelledExactly` | apps/api/src/crm/crm-trials.service.ts:76-104 | cancelled exactly while booked; the enrollment withdrawn if it is a trial, the lead QUALIFIED again if it was TRIAL_BOOKED |
| `CrmDecisions.OutcomeExactly` | apps/api/src/crm/crm-trials.service.ts:106-161 | recorded if and only if the trial is booked, its sheet locked, its student marked, a loss has a reason and the lead's status leads there; attended exactly for PRESENT, LATE or ONLINE |
| `CrmDecisions.LostExactly` | apps/api/src/crm/crm.service.ts:235-266 | lost exactly before WON or LOST; exactly the lead's booked trial is cancelled and withdrawn with it |
| `CrmDecisions.ConvertedExactly` | apps/api/src/crm/crm-conversion.service.ts:22-62 | converted if and only if QUALIFIED or TRIAL_COMPLETED and the student picked can be active in the class: by a seat beside the latest open trial there, or by a new enrollment |
| `CrmDecisions.ConversionWrites` | apps/api/src/crm/crm-conversion.service.ts:35-69 | the open trial activated, or withdrawn and followed, or a new enrollment; the lead WON with the people picked and that enrollment |
| `CrmDecisions.EnrollmentsTold` | apps/api/src/enrollments/enrollments.service.ts:39-128 | reachable: no class over capacity, no student twice in one, end dates exactly on ended rows, links to earlier ended rows of the same student |
| `CrmDecisions.EventsTold` | apps/api/src/enrollments/enrollments.service.ts:118-131 | reachable: each enrollment's events, as written, start each where the one before ended, the last in its status |
| `CrmServices.AppliedConsistent` | apps/api/src/crm/crm-trials.service.ts:31-161 | a transaction that applies its command is a step of the joint machine |
| `CrmServices.CrmService.BookTrial` | apps/api/src/crm/crm-trials.service.ts:31-74 | enrolls, books and moves the lead, or nothing |
| `CrmServices.CrmService.CancelBooking` | apps/api/src/crm/crm-trials.service.ts:76-104 | cancels, withdraws a trial enrollment, and reopens a TRIAL_BOOKED lead |
| `CrmServices.CrmService.TrialOutcome` | apps/api/src/crm/crm-trials.service.ts:106-161 | records the outcome against finalized attendance |
| `CrmServices.CrmService.LoseLead` | apps/api/src/crm/crm.service.ts:235-266 | the loop over booked trials equals its fold, or the whole is rolled back |
| `CrmServices.CrmService.MoveLead` | apps/api/src/crm/crm.service.ts:489-507 | moves a lead along the transition table |
| `CrmServices.CrmService.ConvertLead` | apps/api/src/crm/crm-conversion.service.ts:22-76 | promotes, re-enrolls or creates, and marks the lead WON, or nothing |
| `ImportValidation.BuildReverseMap` | apps/api/src/data-transfer/import-validation.ts:58-63 | the loop builds the reverse of the mapping |
| `ImportValidation.ReverseIsLast` | apps/api/src/data-transfer/import-validation.ts:58-63 | a field reads the last header mapped to it, and is absent exactly when none is |
| `ImportValidation.ImportRowValidator.Load` | apps/api/src/data-transfer/import-validation.ts:271-330 | the maps hold what the store has for the codes in the file: students, classes, operational pairs, consuming counts |
| `ImportValidation.ImportRowValidator.ValidateRow` | apps/api/src/data-transfer/import-validation.ts:390-722 | the issues of one row in order, its ids and status, and the identities met so far; `ImportDecisions.JudgedExactly` says what they are |
| `ImportValidation.ImportRowValidator.CountDemand` | apps/api/src/data-transfer/import-validation.ts:873-885 | counts, for each class, the valid rows that ask for it |
| `ImportValidation.ImportRowValidator.CapacityDemandErrors` | apps/api/src/data-transfer/import-validation.ts:870-909 | returns exactly the numbers of the valid rows whose class cannot seat the batch |
| `ImportValidation.RunValidation` | apps/api/src/data-transfer/data-transfer-import.service.ts:285-300 | a fresh validator over all rows, then the grouped capacity check; of each row it says what `ImportDecisions.ValidatedExactly` states |
| `ImportDecisions.ValidatedExactly` | apps/api/src/data-transfer/import-validation.ts:390-722 | what validation says of each row: valid if and only if student and class are known and, unless PENDING, active, no enrollment of the pair counts, the status cell is empty, PENDING, TRIAL or ACTIVE, no earlier row reads the same codes, its other cells pass and its class has room for the file; the row carries the ids of its codes and the status it spells, PENDING if empty |
| `ImportDecisions.JudgedExactly` | apps/api/src/data-transfer/import-validation.ts:659-722 | the same before the capacity check |
| `ImportDecisions.ConflictsExactly` | apps/api/src/data-transfer/import-validation.ts:870-909 | a row that passes gets a capacity issue if and only if its class lacks the room for all rows of the file that pass and ask for it |
| `ImportDecisions.RepeatsExactly` | apps/api/src/data-transfer/import-validation.ts:707-722 | a row repeats if and only if an earlier one reads the same codes, joined by a bar |
| `ImportDecisions.SamePairExactly` | apps/api/src/data-transfer/import-validation.ts:707-722 | of rows without a bar in the student code, only those of one student and class repeat each other |
| `ImportDecisions.BarredCodesRepeat` | apps/api/src/data-transfer/import-validation.ts:707-722 | two concrete rows of different students and classes, with a bar inside their codes, read as one: the second is refused as a repetition |
| `ImportDecisions.TrimExactly` | apps/api/src/data-transfer/import-validation.ts:390-408 | a cell is read without the white space at both ends, and with nothing else removed |
| `ImportDecisions.UpperExactly` | apps/api/src/data-transfer/import-validation.ts:659-675 | codes are read in capitals |
| `ImportDecisions.MappedExactly` | apps/api/src/data-transfer/data-transfer-import.service.ts:285-300 | a file is validated exactly when a column is mapped to the student code and one to the class code |
| `ImportPredictor.WritesExactly` | apps/api/src/enrollments/enrollments.service.ts:39-53 | writing rows that pass every other check succeeds if and only if no class is asked for more seats than it has left |
| `ImportPredictor.FailsForSeat` | apps/api/src/enrollments/enrollments.service.ts:127-128 | of such rows, a write that fails fails for want of a seat |
| `ImportPredictor.FlaggedIsOver` | apps/api/src/data-transfer/import-validation.ts:886-907 | the validator flags a class exactly when the batch's valid demand and the store's count exceed its capacity |
| `ImportPredictor.PredictorExact` | apps/api/src/data-transfer/import-validation.ts:870-909 | writing the otherwise valid rows in order fails if and only if some class is flagged |
| `ImportPredictor.PredictorSound` | apps/api/src/data-transfer/import-validation.ts:659-722 | if every row is VALID against a store, writing all rows in order from it succeeds |
| `ImportBatches.MappingUsable` | apps/api/src/data-transfer/data-transfer-import.service.ts:243-259 | an accepted mapping maps every required field and no field from two columns |
| `ImportBatches.MappingAcceptedExactly` | apps/api/src/data-transfer/data-transfer-import.service.ts:231-262 | a mapping is accepted if and only if the batch is UPLOADED or VALIDATED, every entry names a column of the file and a known field not named before, and every required field is some column's last target |
| `ImportBatches.ValidationMarks` | apps/api/src/data-transfer/data-transfer-import.service.ts:302-356 | each row is marked by its own verdict, and the counts are those of valid and other rows |
| `ImportBatches.CompletedExactly` | apps/api/src/data-transfer/data-transfer-import.service.ts:366-438 | a confirmation completes if and only if the batch is VALIDATED without an invalid row, mapped, every row valid again and every row written |
| `ImportBatches.CancelledExactly` | apps/api/src/data-transfer/data-transfer-import.service.ts:495-519 | cancelled exactly while UPLOADED or VALIDATED |
| `JsonbOrder.SameTextBack` | apps/api/src/data-transfer/data-transfer-import.service.ts:260 | an object's text equals its text read back from jsonb if and only if, array indices aside, its keys stand in jsonb's order |
| `ImportBatches.UnchangedKeptExactly` | apps/api/src/data-transfer/data-transfer-import.service.ts:260-279 | an accepted mapping leaves a validated batch alone if and only if it is the stored one and the file's headers stand in jsonb's order |
| `ImportEnrollments.OwnMappingResets` | apps/api/src/data-transfer/data-transfer-import.service.ts:243-279 | with the columns studentCode, classCode, resubmitting its own mapping sends a validated batch back to UPLOADED |
| `ImportBatches.RunAllOrNothing` | apps/api/src/data-transfer/data-transfer-import.service.ts:366-438 | over every run in which nothing else writes, the store ends as it began unless the batch is COMPLETED, and then as exactly what writing all its rows in order makes of it |
| `ImportBatches.StepAllOrNothing` | apps/api/src/data-transfer/data-transfer-import.service.ts:366-438 | the store changes only in a confirmation that completes the batch, by all its writes; a failed one leaves it as it was; re-confirming does nothing |
| `ImportBatches.RunSound` | apps/api/src/data-transfer/data-transfer-import.service.ts:231-519 | over every run: COMPLETED, FAILED and VALIDATED mean what their counts and rows say, each validated row as judged under the current mapping |
| `ImportBatches.FinalForever` | apps/api/src/data-transfer/data-transfer-import.service.ts:469-519 | a completed, failed or cancelled batch never changes |
| `ImportServices.ImportService.ChangeMapping` | apps/api/src/data-transfer/data-transfer-import.service.ts:231-283 | checks the entries one by one and resets a changed batch |
| `ImportServices.ImportService.ValidateBatch` | apps/api/src/data-transfer/data-transfer-import.service.ts:302-356 | stores each verdict and the two counts |
| `ImportServices.ImportService.ConfirmBatch` | apps/api/src/data-transfer/data-transfer-import.service.ts:366-438 | writes row by row behind a savepoint, rolled back on the first refusal |
| `ImportServices.ImportService.Cancel` | apps/api/src/data-transfer/data-transfer-import.service.ts:495-519 | cancels an uploaded or validated batch |
| `ImportEnrollments.ConfirmNeverRollsBack` | apps/api/src/data-transfer/data-transfer-import.service.ts:381-407 | for ENROLLMENTS a confirmation completes exactly when revalidation finds every row valid |
| `ImportEnrollments.ConfirmLeaves` | apps/api/src/data-transfer/data-transfer-import.service.ts:399-438 | a completed confirmation leaves the former enrollments and exactly one for each row, its target: of the student and in the class the row's codes name, with the status its cell spells, started if ACTIVE |
| `ImportEnrollments.FieldsExactly` | apps/api/src/data-transfer/data-transfer.catalog.ts:143-156 | any of the six fields may be mapped, the two codes must be |
| `AttendanceSafety.StepSound` | apps/api/src/attendance/attendance.service.ts:235-878 | every command keeps sheets, records, entitlements and bookings in step |
| `AttendanceSafety.RunSound` | apps/api/src/attendance/attendance.service.ts:190-878 | so does every run |
| `AttendanceSafety.EntitlementsTold` | apps/api/src/attendance/attendance.service.ts:998-1140 | reachable: BOOKED if and only if one booked booking, USED if and only if a used one; a live entitlement's absence is excused, regular, on a locked sheet; expiry is thirty days after its session |
| `AttendanceSafety.BookingsTold` | apps/api/src/attendance/attendance.service.ts:488-878 | reachable: a booked booking has an open sheet in a session no later than its entitlement's expiry, and exactly its student's makeup record there carries its id |
| `AttendanceSafety.LockedTold` | apps/api/src/attendance/attendance.service.ts:305-470 | reachable: a locked sheet has no unmarked record and no booked booking |
| `AttendanceSafety.LockedForever` | apps/api/src/attendance/attendance.service.ts:305-470 | once a sheet is locked, at every later moment of the run it is locked, without an unmarked record and without a booked booking |
| `AttendanceSafety.ExpiredNeverBooked` | apps/api/src/attendance/attendance.service.ts:517-524 | booking after the expiry is refused and changes nothing |
| `AttendanceSafety.StepLives` | apps/api/src/attendance/attendance.service.ts:488-1140 | over every command an existing entitlement moves only along its life, becomes available or booked no later than its expiry and expired only after it; a booking that ended never changes |
| `AttendanceSafety.SpentForever` | apps/api/src/attendance/attendance.service.ts:488-1140 | over every run a used or expired entitlement and a used or cancelled booking stay exactly as they are |
| `AttendanceSafety.InitializeSound` | apps/api/src/attendance/attendance.service.ts:935-996 | initializing opens a sheet with its roster and disturbs nothing that exists |
| `AttendanceSafety.ReconcileSound` | apps/api/src/attendance/attendance.service.ts:1044-1088 | the two loops settle every booking of the session, attended ones used, others cancelled and returned |
| `AttendanceSafety.ReconcileExactly` | apps/api/src/attendance/attendance.service.ts:1044-1088 | the two loops together treat each booking by its own record alone, whatever the order: attended means USED and consumed, anything else CANCELLED and returned; nothing else is touched |
| `AttendanceSafety.FinalizeExactly` | apps/api/src/attendance/attendance.service.ts:305-367 | finalizing locks, completes, grants and settles together and changes nothing else; whom it grants and how it settles is stated row by row below |
| `AttendanceDecisions.FinalizedExactly` | apps/api/src/attendance/attendance.service.ts:305-340 | a session is finalized if and only if it is scheduled, its sheet not locked and every record of it marked; without a sheet, if its class has nobody to mark |
| `AttendanceDecisions.FinalizeGrants` | apps/api/src/attendance/attendance.service.ts:998-1042 | afterwards an entitlement exists if and only if it did before or belongs to a regular excused absence of the session whose enrollment is not on trial; a new one is AVAILABLE until thirty days after the session |
| `AttendanceDecisions.FinalizeSettles` | apps/api/src/attendance/attendance.service.ts:1044-1088 | a booked booking of the session becomes USED and its entitlement used if its record is marked MAKEUP, else CANCELLED and the entitlement AVAILABLE or, past its date, EXPIRED; no other booking or entitlement changes |
| `AttendanceDecisions.SheetOpenedExactly` | apps/api/src/attendance/attendance.service.ts:935-996 | the first initialization adds one unmarked regular record for each student on the class's roster, later ones change nothing |
| `AttendanceDecisions.MarkedExactly` | apps/api/src/attendance/attendance.service.ts:235-303 | a record is marked exactly on a scheduled session with an open sheet, a makeup's as MAKEUP or unexcused, a regular one as anything but MAKEUP |
| `AttendanceSafety.CorrectSound` | apps/api/src/attendance/attendance.service.ts:369-470 | a correction revokes, revives or creates entitlements so that they fit the record |
| `AttendanceDecisions.CorrectedExactly` | apps/api/src/attendance/attendance.service.ts:369-425 | a correction is accepted if and only if the sheet is locked, a reason is given, the mark is another one that fits the record's source, and its entitlement is neither booked nor used |
| `AttendanceDecisions.CorrectionFollowed` | apps/api/src/attendance/attendance.service.ts:1090-1140 | with its record an entitlement is revoked, or revived as AVAILABLE or, past its date, EXPIRED |
| `AttendanceDecisions.CorrectionGrants` | apps/api/src/attendance/attendance.service.ts:1090-1121 | a record without one, corrected to excused, entitles every regular excused absence of its session that has none and is not of an enrollment on trial |
| `AttendanceSafety.BookWrites` | apps/api/src/attendance/attendance.service.ts:601-627 | a booking reserves its entitlement and adds or converts exactly one record: UNMARKED if new, MAKEUP with its enrollment kept if it was rostered |
| `AttendanceDecisions.BookedExactly` | apps/api/src/attendance/attendance.service.ts:488-600 | a makeup is booked if and only if the entitlement is AVAILABLE, not past its expiry and its session completed, at a session scheduled by then, of the same course and, where the origin has one, level, not locked, with no record of the student but an unmarked regular one, and with a seat beside the others |
| `AttendanceDecisions.RebookedExactly` | apps/api/src/attendance/attendance.service.ts:657-775 | rebooked under the same conditions, to another session, while it is booked |
| `AttendanceDecisions.CancelledExactly` | apps/api/src/attendance/attendance.service.ts:827-878 | cancelled exactly while booked; entitlement AVAILABLE or EXPIRED by its date, the record gone or the roster's again, nothing else changed |
| `AttendanceSafety.RebookWrites` | apps/api/src/attendance/attendance.service.ts:777-801 | a rebooking takes the old session's record away, or gives the rostered one back unmarked, and places one MAKEUP record in the new session; nothing else changes |
| `AttendanceSafety.BookWithin` | apps/api/src/attendance/attendance.service.ts:588-600 | after a booking the destination's distinct occupants are within capacity |
| `AttendanceSafety.RebookWithin` | apps/api/src/attendance/attendance.service.ts:761-768 | after a rebooking too |
| `AttendanceSafety.IndexesNeverRefuse` | apps/api/src/attendance/attendance.service.ts:571-604 | after the service's checks the unique indexes on active bookings cannot refuse |
| `AttendanceSafety.CancelUndoesBook` | apps/api/src/attendance/attendance.service.ts:827-878 | cancelling restores records and entitlement as before the booking, or expired meanwhile |
| `AttendanceServices.AppliedSound` | apps/api/src/attendance/attendance.service.ts:235-878 | a transaction that applies its command keeps the joint invariant |
| `AttendanceServices.AttendanceService.InitializeInTransaction` | apps/api/src/attendance/attendance.service.ts:935-996 | the two insert loops equal the folds over roster and bookings |
| `AttendanceServices.AttendanceService.InitializeSheet` | apps/api/src/attendance/attendance.service.ts:190-214 | only scheduled sessions are initialized |
| `AttendanceServices.AttendanceService.Update` | apps/api/src/attendance/attendance.service.ts:235-303 | marks a record of an open sheet |
| `AttendanceServices.AttendanceService.CreateRights` | apps/api/src/attendance/attendance.service.ts:998-1042 | one entitlement per earning absence without one; `AttendanceDecisions.FinalizeGrants` and `CorrectionGrants` say which absences earn |
| `AttendanceServices.AttendanceService.ReconcileBookings` | apps/api/src/attendance/attendance.service.ts:1044-1088 | the two loops equal their folds |
| `AttendanceServices.AttendanceService.FinalizeSheet` | apps/api/src/attendance/attendance.service.ts:305-367 | initializes, locks, completes, creates and reconciles, or rolls back |
| `AttendanceServices.AttendanceService.CorrectMark` | apps/api/src/attendance/attendance.service.ts:369-470 | corrects a locked record and its entitlement |
| `AttendanceServices.AttendanceService.BookRight` | apps/api/src/attendance/attendance.service.ts:488-655 | booking, entitlement and record together, or nothing |
| `AttendanceServices.AttendanceService.RebookRight` | apps/api/src/attendance/attendance.service.ts:657-825 | moves the booking and its record, or nothing |
| `AttendanceServices.AttendanceService.CancelRight` | apps/api/src/attendance/attendance.service.ts:827-878 | cancels, returns the entitlement, restores or removes the record |
| `CompensationRecheck.SameAgreement` | apps/api/src/compensation/compensation.service.ts:114-147 | the first match in the sorted list is the lateral query's LIMIT 1 |
| `CompensationRecheck.MinutesAgree` | apps/api/src/compensation/calculation.ts:3-13 | cut and rounded minutes agree if and only if the seconds differ by at least -30 and less than 30 |
| `CompensationRecheck.AmountRounds` | apps/api/src/compensation/calculation.ts:15-22 | the hourly amount is the exact one rounded half up, and an hour more adds one rate |
| `CompensationRecheck.SessionsCanonical` | apps/api/src/compensation/compensation.service.ts:117-170 | generated and expected session items are the same, as the recheck compares them, if and only if every paid session is aligned |
| `CompensationRecheck.SameUnresolved` | apps/api/src/compensation/compensation.service.ts:171-185 | generated and expected unresolved rows are always the same multiset |
| `CompensationRecheck.FixedCanonical` | apps/api/src/compensation/compensation.service.ts:124-201 | fixed-class items agree if and only if each paid agreement is in force on its class's completion day |
| `CompensationRows.SessionLandsOnce` | apps/api/src/compensation/compensation.service.ts:117-123 | every completed session dated from the period's first to its last day is exactly one of: paid by an item, listed as unresolved, left to a fixed-class agreement that fits it best |
| `CompensationRows.OthersLandNowhere` | apps/api/src/compensation/compensation.service.ts:113-123 | any other session has no item, no unresolved row, and none expected |
| `CompensationRows.AgreementIsBest` | apps/api/src/compensation/compensation.service.ts:114-147 | the agreement taken, both ways, is the one with the teacher, for the class or any, in force on the day, that a class-specific one, a later start and then a greater id put first; none exactly when none fits |
| `CompensationRows.SessionItemsExactly` | apps/api/src/compensation/compensation.service.ts:117-123 | the items written are exactly those of the completed sessions within the period with a best agreement that is not fixed-class, over the difference of the times cut to minutes |
| `CompensationRows.ExpectedItemsExactly` | apps/api/src/compensation/compensation.service.ts:151-162 | those expected are the same sessions', over the minutes nearest to the exact duration |
| `CompensationRows.UnresolvedExactly` | apps/api/src/compensation/compensation.service.ts:118-120 | exactly the completed sessions within the period without a teacher or a fitting agreement, with that reason |
| `CompensationRows.FixedItemsExactly` | apps/api/src/compensation/compensation.service.ts:124-201 | exactly the fixed-class agreements in force some day of the period whose class completed within it are paid their rate; the recheck expects those in force on that day |
| `CompensationRecheck.SessionsAddUp` | apps/api/src/compensation/compensation.service.ts:117-123 | items, unresolved rows and sessions left to a fixed-class agreement add up to the completed sessions dated within the period |
| `CompensationGuards.SessionItemAccepted` | apps/api/prisma/tenant/migrations/20260930000000_local_09_teacher_compensation/migration.sql:251-319 | the insert trigger accepts the item of every paid session whose minutes and amount are positive |
| `CompensationGuards.FixedItemAccepted` | apps/api/prisma/tenant/migrations/20260930000000_local_09_teacher_compensation/migration.sql:275-298 | it accepts a generated fixed-class item if and only if the agreement is in force on its class's completion day |
| `CompensationGuards.OwnRowsNeverClash` | apps/api/prisma/tenant/migrations/20260930000000_local_09_teacher_compensation/migration.sql:132-133 | no generation claims a session or a fixed-class agreement twice, nor a session both as paid and as unresolved |
| `CompensationPeriods.RefusedExactly` | apps/api/prisma/tenant/migrations/20260930000000_local_09_teacher_compensation/migration.sql:251-377 | the database refuses a generation exactly for another period's claim, a fixed-class agreement not in force on the completion day, or an hourly amount below half a dong |
| `CompensationPeriods.FilledBalanced` | apps/api/src/compensation/compensation.service.ts:126-132 | grouping by teacher writes every generated item exactly once, and totals are right |
| `CompensationPeriods.StepBalanced` | apps/api/src/compensation/compensation.service.ts:106-139 | every command keeps one right statement per teacher, and none changes a finalized period |
| `CompensationPeriods.RunBalanced` | apps/api/src/compensation/compensation.service.ts:106-139 | so does every run |
| `CompensationPeriods.EarningsConserved` | apps/api/src/compensation/compensation.service.ts:106 | the statements' earnings add up to the items' amounts |
| `CompensationPeriods.GeneratedIsCanonical` | apps/api/src/compensation/compensation.service.ts:140-211 | on unchanged sources a generated period passes the recheck if and only if its paid sessions are aligned |
| `CompensationPeriods.WholeMinutesCanonical` | apps/api/src/attendance/dto/create-attendance-session.dto.ts:5 | with session times in hours and minutes, as the services accept them, a generated period always passes the recheck |
| `CompensationCases.EndedEarlyRefused` | apps/api/src/compensation/compensation.service.ts:124-125 | a fixed-class agreement that ended before its class completed is paid by generation and refused by the trigger |
| `CompensationCases.HalfDongRefused` | apps/api/src/compensation/calculation.ts:15-22 | twenty-nine minutes at one dong an hour round to nothing and are refused |
| `CompensationCases.SkewedNotCanonical` | apps/api/src/compensation/compensation.service.ts:151 | a session with forty-five extra seconds is generated and fails the recheck |
| `CompensationPeriods.FinalizesExactly` | apps/api/src/compensation/compensation.service.ts:213 | and can be finalized, whatever adjustments came between, if and only if also nothing is unresolved and no total is negative |
| `CompensationDecisions.GeneratedExactly` | apps/api/src/compensation/compensation.service.ts:108-132 | a period is generated if and only if it is a draft, every paid session has whole minutes and half a dong and no other claim, every due fixed-class agreement is in force on its completion day without another claim, and no other period claims an unpaid session |
| `CompensationDecisions.GenerateWrites` | apps/api/src/compensation/compensation.service.ts:126-136 | it replaces items and unresolved rows by the generated ones, keeps the adjustments, and leaves one statement that adds up for each teacher of an item or an adjustment and no one else |
| `CompensationDecisions.AdjustedExactly` | apps/api/src/compensation/compensation.service.ts:138 | an adjustment is added exactly to a draft for a known teacher and an amount other than nothing; all statements add up |
| `CompensationDecisions.UnadjustedExactly` | apps/api/src/compensation/compensation.service.ts:139 | one is removed exactly from a draft that has it |
| `CompensationDecisions.FinalizedExactly` | apps/api/src/compensation/compensation.service.ts:140-213 | a period is finalized if and only if it is a generated draft, has and should have nothing unresolved, its items compare equal to those expected, and no total is negative |
| `CompensationDecisions.ComparedExactly` | apps/api/src/compensation/compensation.service.ts:202-211 | items compare equal exactly if they agree in everything but the seconds of their times and the amount of a fixed-class item |
| `CompensationServices.AppliedBalanced` | apps/api/src/compensation/compensation.service.ts:108-213 | a transaction that applies its command keeps every statement right |
| `CompensationServices.CompensationService.RecomputeTotals` | apps/api/src/compensation/compensation.service.ts:106 | recomputes every statement from items and adjustments |
| `CompensationServices.CompensationService.JudgeSessions` | apps/api/src/compensation/compensation.service.ts:117-123 | the session loop pushes exactly the paid items and unresolved rows, or stops on too short a session; `CompensationRows` says which sessions they are |
| `CompensationServices.CompensationService.Rewrite` | apps/api/src/compensation/compensation.service.ts:126-132 | the insert loops write all rows teacher by teacher, and stop exactly when the database would refuse one |
| `CompensationServices.CompensationService.GeneratePeriod` | apps/api/src/compensation/compensation.service.ts:108-136 | replaces the period's rows, or restores them when a row is refused |
| `CompensationServices.CompensationService.Adjust` | apps/api/src/compensation/compensation.service.ts:138 | adds an adjustment to a draft period |
| `CompensationServices.CompensationService.Unadjust` | apps/api/src/compensation/compensation.service.ts:139 | removes one |
| `CompensationServices.CompensationService.FinalizePeriod` | apps/api/src/compensation/compensation.service.ts:213 | finalizes a generated, resolved, canonical period without negative totals |
| `Csv.TableRead` | apps/api/src/csv.ts:5-19 | reading back a printed table of at least one column gives its shown cells |
| `Csv.CellExactly` | apps/api/src/csv.ts:5-13 | a text that begins with an equals, plus, minus or at sign, a tab or a carriage return is shown after an apostrophe, any other as it is; it is quoted exactly for a quote, comma or line break |
| `Csv.PrintReadInverse` | apps/api/src/csv.ts:5-19 | after the BOM, reading what was printed gives back the shown headers and rows if and only if every line has a column |
| `Csv.Unambiguous` | apps/api/src/csv.ts:5-19 | two tables that print alike show alike |

## Left out

- HTTP controllers, guards, DTO decorators, the React application, configuration and process plumbing.
- Postgres isolation, statement snapshots and waits on unique indexes or foreign keys: a command is one atomic step, except in `BillingLocks`, which covers explicit row locks only.
- Audit payloads, actors, notes, free-text reasons of enrollment and CRM events, Vietnamese messages; error kinds stand for the exceptions.
- ULID generation: generated ids are parameters, unique where the ledger needs it; rows that are never deleted take their table position as id.
- Invoice and credit note numbers, invoice items and discount snapshots once added up; which price of an enrollment is in force, and which discounts, are parameters.
- Attendance record ids: a record is identified by session and student; an entitlement's record is never deleted, since it stands on a locked sheet.
- Attendance notes, the correction log, and session changes made by the schedules service; the claims are over attendance commands.
- The CRM's follow-up edits, notes, duplicate search, lead event log and guardian links; a collision of a generated student code is one failure, since the failed insert aborts the transaction.
- Enrollment dates of enrolment and expected end, notes, and the classes named in events.
- Import types other than ENROLLMENTS in the validator; the batch machine is generic in the type's validation and write.
- CSV upload parsing and chunked inserts; a column headed `__proto__`, which an object does not keep as a property of its own.
- `ImportValidation.ImportRowValidator.ValidateRow`: does not model the date and note checks of an enrollment row, whose outcome is a parameter; text is upper-cased for ASCII letters only.
- `ImportBatches.RunSound`: does not model the issue list of a row, only whether it is empty.
- Compensation agreements' own commands, and the names and descriptions copied onto items; other periods' claims on a session are a parameter.
- Audit filters compare abstract ids, and the filter hash stands for the filter itself.
