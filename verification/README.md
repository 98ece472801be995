# Verified model of the academic service

The service manages tutoring classes over PostgreSQL: weekly schedules and their generated sessions,
enrollments that reserve seats, private requests that are approved, paid for and announced, and attendance.
This project models its stateful cores in Dafny 4.11 and proves what they promise over whole runs.
`dafny verify dfyconfig.toml` checks everything.

## What is modelled

A database table is a map, a committed transaction is one step, and a date is a day number with a proved
Gregorian calendar. Every core has three layers: functions that say what a transaction does to the tables
(every branch, check order and error of the code), methods of a class that perform it step by step and are
proved to do exactly that, and theorems over every run of the functions. The modules named Outcomes and
Lessons say, apart from those functions, when each transaction succeeds and what it leaves. Where the point is
concurrency, a second model has one step per statement and any number of transactions, workers or calls in any
interleaving.

- **Calendar, Generation, ScheduleVersions, ScheduleInvariants, ScheduleTheorems, ScheduleSessions,
  ScheduleCompleteness, ScheduleOutcomes, ScheduleLessons, GenerationLaws, ScheduleService, SessionWorker** -
  weekly schedules with a validity window and a generation watermark; the worker that extends them month by
  month; permanent changes and tutor changes that split a row in two; one-off changes, saves of sessions read
  earlier, and deletion of sessions, rows and classes. Each row carries two history tags that no transaction
  reads: the lineage it descends from through any split, and the family it descends from through tutor changes
  alone.
- **Enrollments, EnrollmentOutcomes, EnrollmentTheorems, EnrollmentService** - seats, the rule of one live
  enrollment per student and class, and the life cycle, as atomic transactions. **ScheduleSeats** joins them
  with the schedule changes that move seats.
- **SeatProtocol, SeatAlone, SeatRoom, SeatTheorems, SeatExact, SeatWaits** - the same transactions as lock,
  check, count and write statements, beside the worker's steps and the edits of sessions and attendance. A
  transaction holds its row locks from the statement that takes them to its end; others see only what is
  committed; foreign keys wait for the row they refer to; the partial unique index decides at the write.
  Restores and saves of earlier copies are single statements that lock and count nothing.
- **ChatOutbox, ChatOutcomes, ChatOutboxTheorems, ChatDelivery, ChatRecords, ChatWorker** - events of private
  requests captured with the business change, and their leased, fenced, retried and ordered delivery.
- **Notifications, NotificationOutcomes, NotificationWorker** - the parent notification outbox. **Backoff**
  has the delays both workers use.
- **PrivatePurchase, PurchaseService, PurchaseOutcomes** - approving a request or accepting its
  recommendation: two transactions with the billing call in between, retried and interleaved.
  **PurchaseSchedules** follows a purchase to its generated lessons.
- **Cancellation** - a parent's cancellation against payment and against signups under way, as a protocol of
  two services.
- **PrivateSlots, Attendance, LikePattern** - overlap checking and slot selection, bulk de-duplication and
  upsert, and LIKE escaping.
- **Common** - identifiers, options and results.

## What the proofs show about the code

Most properties hold as the code and its comments promise them. These hold only under a condition, which is
stated exactly, with an input that breaks it:

- A worker that is silent for more than horizonMonths + 1 months loses dates for good: nothing before the
  current month is backfilled (`Generation.OneShotExactlyWhenOnTime`, `Generation.LatePassLosesADate`).
- Rescheduling and substituting read a session without a lock and save the whole row. A permanent change or
  deletion that commits in between is overwritten, and a cancelled session is scheduled again on an ended row.
  Such a save is harmless exactly when it does not leave the session scheduled, or finds it scheduled in a row
  that still covers the date (`ScheduleSessions.SaveSafeExactly`, `ScheduleSessions.RevivedIsReachable`). The
  results about scheduled and removed sessions are about runs of such saves; the windows of a lineage, the
  watermarks and the dates generated need no such hypothesis.
- Restoring a fee-refused enrollment makes no capacity check and takes no schedule lock. Alone, it is safe
  exactly when the enrollment has no schedule or its schedule has a free seat
  (`EnrollmentTheorems.RestoreSafeExactly`, `EnrollmentTheorems.NeverOverbookedExactly`); beside other
  transactions, exactly when a seat is left after all that they have counted (`SeatExact.RoomExactly`,
  `SeatExact.RestoreBesideCountOverbooks`). Private enrollments are created without a schedule, but assigning
  one is not barred for private classes (`EnrollmentTheorems.RestoreCanOverbook`).
- The public and tenant signups save the whole enrollment row, with the status read before the billing call.
  An activation that commits in between is lost, and a late release then drops the enrollment
  (`EnrollmentTheorems.StaleSaveOfPendingExactly`, `EnrollmentTheorems.StaleSaveKeepsStatusExactly`,
  `EnrollmentTheorems.StaleSaveLosesActivation`); a successful cancellation in between is undone
  (`Cancellation.StaysDroppedExactly`, `Cancellation.CancelledMayReturn`); and a seat can be taken twice
  (`EnrollmentTheorems.StaleSaveSafeExactly` alone, `SeatExact.RoomExactly` beside others).
- Rows are locked before schedules, yet transactions can wait in a circle. A permanent change of a private row
  holds the row and inserts sessions that refer to its owner, while the assignment of the owner to that row holds
  the owner and waits for the row; a resumption does the same in a group row that is being changed or deleted
  while a bulk attendance marks the student. `SeatWaits.CircleExactly` says exactly when,
  `SeatWaits.OwnerCircleIsReachable` and `SeatWaits.AttendanceCircleIsReachable` reach it, and
  `SeatWaits.NoCircle` says what excludes it.
- A private enrollment that was dropped for the platform fee may be restored at any time; one that was dropped by
  a cancellation is not (`Cancellation.StaysDroppedExactly`, `Cancellation.CancelledStaysDroppedExactly`).
- A cancellation that found no transaction at billing may be followed by an invoice that is paid
  (`Cancellation.WithdrawalSafeExactly`, `Cancellation.CancelledBeforeInvoiceMayBePaid`).
- A tutor change makes no history check: with a past effective date it reassigns attended sessions that are
  still scheduled (`ScheduleTheorems.TutorChangeKeepsExactly`).
- Rescheduling a session that is no longer scheduled adds a lesson
  (`ScheduleSessions.RescheduleMovesTheLesson`, `ScheduleSessions.RescheduledTwiceIsReachable`).
- A request approved for some slots, reopened by a fee refusal, rejected with other slots and then accepted is
  announced with the other slots while its schedule rows stay the first ones
  (`PrivatePurchase.AnnouncedAreScheduledExactly`, `PrivatePurchase.OldSlotsAreReachable`).
- A process that stops between dropping a refused enrollment and reopening its request leaves the request
  approved for good, with every later call refused (`PrivatePurchase.ReopensExactly`,
  `PrivatePurchase.StuckIsReachable`).

## Assumptions

- UUIDs are fresh: ids and lease tokens are inputs, an id in use is answered as a duplicate key, and a used token
  is not claimed with again.
- Clocks are inputs. Worker clocks may go backwards; no result orders them unless it says so.
- A save of an entity writes every column of its row, the schedule and the deletion mark included.
- Runs of atomic enrollment transactions write an invoice into the payment fields only, which is what the
  private path does; the whole-row saves of the other signups are steps of `SeatProtocol` and `Cancellation`.
- Billing, identity and message delivery answer arbitrarily, within the contract their clients state: a
  withdrawal is refused once the transaction is paid, is idempotent, and a withdrawn transaction is never paid.
  Activation notices follow payment in `Cancellation` only.
- Row locks, the two partial unique indexes and the idempotency-key lookup behave as PostgreSQL documents them at
  its default isolation level.

## Model

| member | source | states |
|---|---|---|
| Calendar.CivilRoundTrip | internal/usecase/schedule_usecase.go:187-201 | civil dates and day numbers are in one-to-one correspondence, so date arithmetic on day numbers is date arithmetic on the Gregorian calendar |
| Calendar.YearLength | internal/usecase/schedule_usecase.go:199-201 | the months of a Gregorian year add up to 365 days, or to 366 in a leap year |
| Calendar.EndOfMonthIsLast | internal/usecase/schedule_usecase.go:199-201 | the end of month is the greatest day of the month of the given day, for every day of every year |
| Calendar.IsoWeekdayCycle | internal/usecase/schedule_usecase.go:178-184 | weekdays advance by one a day, run 1 to 7 and two days share one exactly when they are a multiple of seven days apart (ISO 8601:2004 section 4.1.4) |
| Calendar.WorkerWindow | internal/usecase/session_generation_worker.go:61-66 | the worker's window is the first day of the current month through the last day of the month horizonMonths later |
| Calendar.WindowsMeet | internal/usecase/session_generation_worker.go:61-66 | two passes leave no uncovered date between them if and only if at most horizonMonths + 1 months separate them |
| Generation.SessionsBetween | internal/usecase/schedule_usecase.go:212-249 | the generation loop yields, in order, exactly the planned sessions of the dates in range, clipped to the validity window, on the row's weekday |
| Generation.DatesExact | internal/usecase/schedule_usecase.go:212-249 | those dates are strictly increasing and are exactly the days of range and window on the weekday |
| Generation.DatesSplit | internal/usecase/schedule_usecase.go:212-249 | splitting a range anywhere splits its dates there, so generating in pieces is generating in one go |
| Generation.DatesCount | internal/usecase/schedule_usecase.go:212-249 | a range of n days inside the window holds n / 7 dates rounded down or up, with the exact number |
| Generation.InsertMissing | internal/repository/session_generation_repository.go:59-69 | inserting skips every date that has a row, whatever its state, keeps those rows as they are and counts the rows added |
| Generation.GenerateLocked | internal/usecase/session_generation_worker.go:83-99 | one worker transaction on a locked row is the generation step the other results are about |
| Generation.GenerateIsMonotone | internal/repository/session_generation_repository.go:59-78 | a generation step adds sessions only above the watermark and from the month start on, changes none that exists and never lowers the watermark |
| Generation.PassesRefineOneShot | internal/usecase/session_generation_worker.go:61-99 | after any passes that leave no gap, the dates ever generated are exactly those of one generation from the start through the last horizon |
| Generation.GapFreeMeansOnTime | internal/usecase/session_generation_worker.go:61-99 | passes leave no gap if and only if each comes at most horizonMonths + 1 months after the last that moved the horizon |
| Generation.LatePassLosesADate | internal/usecase/session_generation_worker.go:88-94 | a pass that starts a week or more after the last covered day loses a date that no later pass generates |
| Generation.OneShotExactlyWhenOnTime | internal/usecase/session_generation_worker.go:61-99 | for a schedule without an end date, the passes generate exactly the one-shot dates if and only if none of them is late |
| Generation.NeverBackfilled | internal/usecase/session_generation_worker.go:88-94 | a date at or below the watermark that has no session is generated by no later pass |
| GenerationLaws.TutorChangeCommutes | internal/usecase/schedule_usecase.go:725-764 | in every reachable database, for any effective date and any later worker passes, the sessions over the old and new rows of a tutor change are those of the unchanged schedule; only the tutor and row of scheduled sessions from the effective date on differ |
| GenerationLaws.CreatedIsGenerated | internal/usecase/schedule_usecase.go:252-383 | a created schedule starts generated from valid_from through the end of that month |
| GenerationLaws.CreatedThenPassed | internal/usecase/schedule_usecase.go:252-383 | from creation through any passes that are on time, a schedule has exactly the dates of one generation from valid_from through the last horizon |
| GenerationLaws.ChangedIsGenerated | internal/usecase/schedule_usecase.go:534-575 | a permanent change leaves the old row nothing scheduled from the effective date on and starts the new row generated, at the new times, through the end of the effective month |
| GenerationLaws.ChangedThenPassed | internal/usecase/schedule_usecase.go:534-575 | the new row of a permanent change then has, through any passes that are on time, exactly the dates of one generation from the effective date |
| ScheduleInvariants.RunKeepsInv | internal/usecase/schedule_usecase.go:66-777 | every run of creations, worker steps, permanent and tutor changes, reschedules, substitutions, deletions of sessions, schedules and classes, attendance and saves of earlier copies of a session keeps the tables well-formed, the windows of each lineage disjoint and covering, and each date generated once in a family |
| ScheduleTheorems.WindowsPartition | internal/usecase/schedule_usecase.go:456-777 | over every run, the validity windows of a lineage stay pairwise disjoint and their union is exactly the window the lineage was created with |
| ScheduleTheorems.WatermarkNeverFalls | internal/repository/session_generation_repository.go:71-78 | over every run, with clocks in any order, a row's watermark never falls |
| ScheduleTheorems.GeneratesAboveWatermark | internal/usecase/session_generation_worker.go:88-99 | no later worker step, with any clock, creates a session at a date at or below the watermark, for the row or its tutor-change successors |
| ScheduleTheorems.HistoryUntouched | internal/repository/schedule_change_guard.go:35-43 | a permanent change or a deletion leaves completed and attended sessions as they are |
| ScheduleTheorems.TutorChangeKeepsExactly | internal/usecase/schedule_usecase.go:694-764 | a tutor change, which runs no history check, leaves a session alone if and only if it is refused, keeps the row, takes effect later, the session is another row's or no longer scheduled, or a first assignment of a private row finds it with that tutor already |
| ScheduleSessions.RunKeepsFit | internal/usecase/schedule_usecase.go:395-777 | over every run whose session saves are admissible, every scheduled session lies in its own row's window and weekday |
| ScheduleSessions.OneScheduledSessionPerDate | internal/usecase/schedule_usecase.go:395-777 | over every such run, a lineage never has two scheduled sessions on one date |
| ScheduleSessions.NothingRevived | internal/repository/session_generation_repository.go:55-78 | over every such run, a cancelled, rescheduled or deleted session stays on some row of its tutor-change family, and no row of that family ever has a scheduled session on that date again |
| ScheduleSessions.SaveSafeExactly | internal/repository/session_repository.go:229-231 | a whole-row save of a session read earlier keeps scheduled sessions in their rows and removed ones removed if and only if, when it leaves the session scheduled, it finds it scheduled and its row still covering the date |
| ScheduleSessions.UnchangedIsAdmissible | internal/usecase/schedule_usecase.go:395-453 | a save of a row nothing changed since the read is admissible and does what the edit does in one step |
| ScheduleSessions.StaleSubstituteRevives | internal/usecase/schedule_usecase.go:635-649 | a substitution read before a permanent change and saved after it puts the cancelled session back as scheduled on the ended row |
| ScheduleSessions.RevivedIsReachable | internal/usecase/schedule_usecase.go:635-649 | that state is reached from empty tables by a creation, a permanent change and the save |
| ScheduleSessions.RescheduleMovesTheLesson | internal/usecase/schedule_usecase.go:395-453 | a reschedule keeps the number of lessons exactly when the session was still scheduled, and adds one otherwise; the replacement keeps the tutor and takes the new date and times |
| ScheduleSessions.RescheduledTwiceIsReachable | internal/usecase/schedule_usecase.go:395-453 | rescheduling one session twice leaves one lesson more |
| ScheduleCompleteness.RunKeepsFilled | internal/usecase/session_generation_worker.go:61-99 | over every run in which the worker is on time for the rows it extends, every fitting date of every row up to its watermark has a session in the row's family |
| ScheduleCompleteness.NoDateMissed | internal/usecase/session_generation_worker.go:61-99 | after such a run from empty tables and one more step on time, every fitting date of a live row up to the horizon has a session in its family |
| ScheduleSeats.ChangeMovesSeats | internal/usecase/schedule_usecase.go:534-590 | a permanent change that passes its guard moves every reserved seat of the old row to the new one, within the new capacity, and no other |
| ScheduleSeats.ScheduleTransactions.ChangeSchedulePermanent | internal/usecase/schedule_usecase.go:467-595 | the change of rows and sessions and the move of the enrollments are one transaction: the guard counts the live enrollments, and both happen or neither with the first failing check's error |
| ScheduleSeats.ScheduleTransactions.ChangeTutorPermanent | internal/usecase/schedule_usecase.go:659-777 | one of the three outcomes of a tutor change, with the enrollments moved exactly when the row splits, or no change |
| ScheduleSeats.ScheduleTransactions.DeleteSchedule | internal/usecase/schedule_usecase.go:66-97 | soft-deletes the row and cancels its scheduled sessions, unless another tenant owns it or history or reserved seats forbid it |
| ScheduleOutcomes.CreationExactly | internal/usecase/schedule_usecase.go:252-383 | a schedule is created if and only if its request passes every check, told from the request, and the first failing check answers |
| ScheduleOutcomes.CreatedAsRequested | internal/usecase/schedule_usecase.go:252-383 | the created row carries what was requested, with a lesson on exactly the requested weekdays of its first month, and no other row changes |
| ScheduleOutcomes.WorkerStepExactly | internal/repository/session_generation_repository.go:34-78 | a step changes exactly a row that is not deleted, of a class that is not, with a live owner if any, below the horizon and not ended; it adds a lesson of the row on each fitting day above the watermark and month start, and keeps all others |
| ScheduleOutcomes.PermanentExactly | internal/usecase/schedule_usecase.go:467-595 | a permanent change succeeds if and only if request, window, history, seats, tutor and id allow it, told from the stored rows, and the first failing check answers |
| ScheduleOutcomes.ChangedAsRequested | internal/usecase/schedule_usecase.go:534-581 | the old row ends the day before with its scheduled sessions cancelled; the new one has the requested weekday, times, tutor, capacity and location, or the old row's where none was requested, and so has each of its lessons |
| ScheduleOutcomes.TutorChangeExactly | internal/usecase/schedule_usecase.go:659-777 | a tutor change succeeds if and only if its checks pass, and it keeps the row, assigns in place or hands over, with every row and session told one by one |
| ScheduleOutcomes.StaleSaveExactly | internal/repository/session_repository.go:229-231 | a save writes every column of the copy to the row it was read on, attendance aside, and nothing else |
| ScheduleOutcomes.ScheduleDeletedExactly | internal/usecase/schedule_usecase.go:66-97 | a schedule is deleted, its scheduled sessions from today on cancelled, if and only if it is there and neither history nor seats forbid it |
| ScheduleOutcomes.ClassDeletedExactly | internal/usecase/class_usecase.go:70-97 | a class is deleted with all its rows, future sessions and replacements if and only if it is there and has no active enrollment, and no other row changes |
| ScheduleLessons.ChangedLessonsAsRequested | internal/usecase/schedule_usecase.go:534-581 | after a permanent change and any on-time passes the new row has a lesson on exactly the requested weekdays from the effective date through the last horizon and no later than the old row went, each at the requested times and with the requested tutor or the old one |
| ScheduleLessons.CreatedLessonsAsRequested | internal/usecase/schedule_usecase.go:252-383 | after a creation and any on-time passes a row has a lesson on exactly the requested weekdays inside the requested window, each as requested |
| ScheduleLessons.BatchExactly | internal/usecase/schedule_usecase.go:252-383 | a batch creates every item as requested and nothing else, or answers the error of the first item that cannot be created after those before it |
| ScheduleLessons.NothingGenerated | internal/repository/session_generation_repository.go:34-53 | while a row is deleted, its class is, or its owner is not live, no transaction of any run adds a session to it, but the save of one that was read on it |
| ScheduleLessons.DeletedForGood | internal/repository/session_generation_repository.go:34-53 | a row once deleted stays so over every run |
| ScheduleLessons.ClassDeletedForGood | internal/repository/session_generation_repository.go:34-53 | the rows of a deleted class stay over in every run that does not bring the class back |
| ScheduleLessons.OwnerGone | internal/repository/session_generation_repository.go:34-53 | a private row stays over in every run in which its owner is not live again |
| ScheduleService.ValidateChange | internal/repository/schedule_change_guard.go:23-53 | refuses a past date, completed or attended sessions from the date on, and reserved seats above the capacity or, for a deletion, any |
| ScheduleService.GenerateInitial | internal/usecase/schedule_usecase.go:204-249 | the sessions of a new row, through the end of its first month |
| ScheduleService.ScheduleUsecase.CancelFutureSessions | internal/repository/session_repository.go:237-243 | cancels exactly the row's scheduled sessions from the date on |
| ScheduleService.ScheduleUsecase.UpdateFutureSessionsTutor | internal/repository/session_repository.go:253-262 | gives exactly those sessions the new tutor and the new row |
| ScheduleService.ScheduleUsecase.CreateInitialSchedules | internal/usecase/schedule_usecase.go:252-383 | creates the items in turn, checks in the code's order, and rolls all back on the first error |
| ScheduleService.ScheduleUsecase.DeleteClassById | internal/usecase/class_usecase.go:70-97 | deletes all rows of the class and cancels its future scheduled sessions, replacements included, unless the class is unknown, another tenant's or has active enrollments, in that order |
| SessionWorker.SessionGenerationWorker.LockNextScheduleDue | internal/repository/session_generation_repository.go:34-53 | the least schedule above the cursor that is due and not locked, never one that is deleted, of a deleted class or of an owner that is not live; none only if every such schedule is locked |
| SessionWorker.SessionGenerationWorker.RunOnce | internal/usecase/session_generation_worker.go:71-125 | whatever others commit between its turns, whatever is locked, rolls back or cancels the pass: every turn takes the least schedule above the last one that is due and not locked then, the tables are those of the committed transactions in order, and the pass ends early only when cancelled or unable to look |
| SessionWorker.NoneSkipped | internal/usecase/session_generation_worker.go:71-125 | a schedule that stays due and unlocked until its turn is visited in every pass that ends by itself, whatever others commit and whatever fails |
| SessionWorker.VisitsAscend | internal/usecase/session_generation_worker.go:71-125 | visits are in strictly ascending order, each of a schedule that was due and not locked then |
| SessionWorker.PassEnds | internal/usecase/session_generation_worker.go:71-125 | a pass visits no more schedules than the table holds at its end, whatever others add meanwhile |
| SessionWorker.CreatedIsGrowth | internal/usecase/session_generation_worker.go:111-118 | when nobody else commits meanwhile, the sessions reported are the growth of the visited rows, failed visits adding none |
| SessionWorker.UndisturbedPass | internal/usecase/session_generation_worker.go:68-125 | when nothing is changed, locked or fails meanwhile, exactly the due schedules are generated |
| SessionWorker.PassLeavesNothingDue | internal/usecase/session_generation_worker.go:68-125 | after an undisturbed pass no live schedule is due at that horizon, and a second pass changes nothing |
| SessionWorker.PassIsARun | internal/usecase/session_generation_worker.go:71-125 | a pass is a run of its committed worker transactions between those of others, so it keeps everything proved over runs |
| EnrollmentTheorems.NeverTwoLive | internal/repository/enrollment_repository.go:83-123 | at most one pending or active enrollment per student and class after any run of every operation, restores included |
| EnrollmentTheorems.NeverOverbookedExactly | internal/repository/enrollment_repository.go:48-87 | a run of transactions keeps every schedule within its capacity at every moment if and only if each restore finds a free seat |
| EnrollmentTheorems.UnseatedHaveSeat | internal/usecase/private_schedule_request_usecase.go:222-225 | restores of enrollments that never have a schedule, which are those of the private path, meet that condition |
| EnrollmentTheorems.RestoreSafeExactly | internal/repository/enrollment_repository.go:415-426 | when nothing else is under way, a restore keeps every schedule within its capacity if and only if the enrollment has no schedule or its schedule has a free seat |
| EnrollmentTheorems.RestoreCanOverbook | internal/repository/enrollment_repository.go:365-426 | a run of signups without a schedule, assignments, a refusal and a restore, as the code's callers issue them, that leaves two live enrollments on one seat |
| EnrollmentTheorems.SeatsFollowTheRow | internal/repository/enrollment_repository.go:48-87 | a transaction on one enrollment changes the seats of any schedule by that enrollment's own seat and nothing else |
| EnrollmentTheorems.ReplaceMovesEverySeat | internal/repository/enrollment_repository.go:357-363 | a schedule change moves every seat of the old row to the new one and no other |
| EnrollmentTheorems.ClassesAlwaysMatch | internal/repository/enrollment_repository.go:365-383 | an enrollment's schedule is always one of its class |
| EnrollmentOutcomes.SignupExactly | internal/repository/enrollment_repository.go:48-87 | a signup succeeds if and only if its id is new, the class is there, published and open, the student has no place in it, and the schedule is one of the class that runs and has room, or none for a class that is no group; the first failing check answers |
| EnrollmentOutcomes.ResumeExactly | internal/repository/enrollment_repository.go:135-187 | a suspended enrollment takes its place back if and only if its schedule is one of the class, runs and has room and the student has no other place; otherwise the code's one conflict or a full schedule answers |
| EnrollmentOutcomes.AssignExactly | internal/repository/enrollment_repository.go:365-396 | a schedule is assigned if and only if the enrollment is pending without one and the row is of its class, runs and has room; the first failing check answers |
| EnrollmentOutcomes.RestoredExactly | internal/repository/enrollment_repository.go:412-426 | an enrollment comes back if and only if it was dropped for the platform fee and the student has no other place in the class |
| EnrollmentOutcomes.ReplacedExactly | internal/repository/schedule_change_guard.go:45-51 | a replacement succeeds if and only if the row is there, its live enrollments fit the capacity and the id is new; exactly those enrollments move |
| EnrollmentOutcomes.RemovedExactly | internal/repository/schedule_change_guard.go:45-51 | a schedule is removed if and only if it is there and has no live enrollment |
| EnrollmentTheorems.StaleSaveSafeExactly | internal/usecase/enrollment_usecase.go:215-299 | when nothing else is under way, the whole-row save after the billing call keeps the capacity if and only if a seat is free whenever the earlier copy holds one the row no longer holds |
| EnrollmentTheorems.StaleSaveLosesActivation | internal/usecase/enrollment_usecase.go:290-301 | an activation committed before that save is overwritten, and a late release then drops the enrollment |
| EnrollmentTheorems.StaleSaveKeepsStatusExactly | internal/usecase/enrollment_usecase.go:215-301 | after any run between the read and the save, a late release drops an enrollment that run had activated if and only if the copy was read pending or dropped; the committed status stays if and only if it is the one read |
| EnrollmentTheorems.StaleSaveOfPendingExactly | internal/usecase/enrollment_usecase.go:215-301 | the save of a copy read pending leaves what was committed if and only if no activation, release, cancellation or refusal of the enrollment came in between |
| EnrollmentTheorems.StaleSaveRefusedExactly | internal/repository/enrollment_repository.go:109-123 | the save is refused if and only if the earlier copy is live and the student took another place in the class meanwhile |
| EnrollmentTheorems.CompletedIsFinal | internal/usecase/enrollment_usecase.go:457-692 | completed is final over every run |
| EnrollmentTheorems.DroppedIsFinal | internal/repository/enrollment_repository.go:412-426 | dropped is left only by restoring an enrollment refused for the platform fee |
| EnrollmentTheorems.OnlyEndStops | internal/usecase/enrollment_usecase.go:457-692 | an active or suspended enrollment stays so over every run that does not end it, late releases and cancellations included |
| EnrollmentTheorems.RepeatChangesNothing | internal/usecase/enrollment_usecase.go:457-692 | repeating an activation, release, suspension, resumption or end is answered the same and changes nothing |
| EnrollmentTheorems.SuspendResumeUndone | internal/usecase/enrollment_usecase.go:560-643 | suspending and resuming at once restores the tables if and only if the schedule still exists, matches the class and has not ended |
| EnrollmentTheorems.FirstNotificationWins | internal/usecase/enrollment_usecase.go:457-551 | the first of a payment and a failure notification decides: after an activation no release, refusal or cancellation takes the place away, after a release nothing gives it back |
| EnrollmentTheorems.SeatsFreed | internal/usecase/enrollment_usecase.go:457-692 | payment changes no seat count; a transition that frees a seat frees the enrollment's own on its schedule, and a late release or refusal of a started enrollment frees none |
| EnrollmentTheorems.FreedSeatIsTaken | internal/repository/enrollment_repository.go:48-87 | a seat freed by a transition can be taken at once by any student without a place in the class |
| EnrollmentService.EnrollmentUsecase.CountSeats | internal/repository/enrollment_repository.go:75-77 | the count is the number of live enrollments on the schedule |
| EnrollmentService.EnrollmentUsecase.RejectLive | internal/repository/enrollment_repository.go:93-107 | true exactly when another live enrollment of the student in the class exists |
| EnrollmentService.EnrollmentUsecase.CreateIfCapacityAvailable | internal/repository/enrollment_repository.go:48-87 | the signup transaction with its checks in the code's order |
| EnrollmentService.EnrollmentUsecase.ResumeUnderCapacity | internal/repository/enrollment_repository.go:135-187 | the seat reclaim, every refusal but a full schedule being one conflict |
| EnrollmentService.EnrollmentUsecase.ResumeEnrollment | internal/usecase/enrollment_usecase.go:602-643 | resumes a suspended enrollment, answers an active one and refuses the rest; a failure changes nothing |
| EnrollmentService.EnrollmentUsecase.AssignSchedule | internal/repository/enrollment_repository.go:365-396 | gives a pending enrollment without a schedule one of its class that has not ended and has a seat |
| EnrollmentService.EnrollmentUsecase.TransferSchedule | internal/repository/enrollment_repository.go:357-363 | moves exactly the live enrollments of the old schedule and class |
| EnrollmentService.EnrollmentUsecase.ReplaceSchedule | internal/repository/schedule_change_guard.go:45-51 | the seat side of a permanent change: refuses a capacity below the seats taken |
| EnrollmentService.EnrollmentUsecase.UpdatePaymentDetails | internal/repository/enrollment_repository.go:398-410 | writes the invoice only where none is stored and the enrollment is live, and never the status |
| EnrollmentService.EnrollmentUsecase.RestoreRejectedEnrollment | internal/repository/enrollment_repository.go:412-426 | restores a fee-refused enrollment unless the unique index forbids it |
| SeatTheorems.SafeUnderInterleaving | internal/repository/enrollment_repository.go:48-187 | with lock, check, count and write as separate statements of any number of transactions, and restores and stale saves in between, every interleaving keeps capacity, uniqueness, exclusive locks and a seat for every count taken, as long as each uncounted write finds room |
| SeatTheorems.NeverOverbookedUnderInterleaving | internal/repository/enrollment_repository.go:48-187 | no state of such an interleaving, mid-transaction included, has more live enrollments on a schedule than its capacity or two of one student in one class |
| SeatExact.RoomExactly | internal/repository/enrollment_repository.go:412-426 | a restore or a stale save is safe over all continuations if and only if it takes no new seat or one is still free after every seat and capacity counted under that schedule's lock is honoured |
| SeatExact.RestoreBesideCountOverbooks | internal/repository/enrollment_repository.go:365-426 | a restore that finds the one seat free between the count and the write of an assignment overbooks it |
| SeatExact.TakesNoSeatHasRoom | internal/repository/enrollment_repository.go:412-426 | a restore or save that takes no seat the row did not hold, such as one without a schedule, always finds room |
| SeatRoom.CommitIsAtomic | internal/repository/enrollment_repository.go:48-187 | a commit does what the whole transaction would do alone at that moment, success or index error, except that a deletion may have counted before an uncounted write |
| SeatExact.CommitsAtomicUnderInterleaving | internal/repository/enrollment_repository.go:48-187 | over every interleaving whose uncounted writes take no seat, every commit, deletions included, is what its transaction would do alone then |
| SeatAlone.AloneIsAtomic | internal/repository/enrollment_repository.go:48-187 | run without interleaving, the statements of a transaction leave exactly the tables that the atomic transaction leaves, refusals included, and hold nothing afterwards |
| SeatTheorems.RaceLoserRefused | internal/repository/enrollment_repository.go:109-123 | of two signups of a student in a class that both found no duplicate, the second to write is refused by the index |
| SeatWaits.WaitsExactly | internal/repository/enrollment_repository.go:48-396 | each lock, guard and last statement finds the enrollment, schedule and session rows it needs free, those its foreign keys refer to included, if and only if no other transaction blocks it |
| SeatWaits.SessionsGuarded | internal/repository/schedule_change_guard.go:33-37 | a session is edited exactly while no change or deletion of its row has counted, and those count exactly while no edit holds one |
| SeatWaits.OwnerIsAwaited | internal/usecase/schedule_usecase.go:575-581 | a change or generation cannot insert sessions of a private row while another transaction holds its owner |
| SeatWaits.CircleExactly | internal/repository/enrollment_repository.go:365-375 | transactions wait in a circle if and only if assignments or resumptions do: each holds its enrollment and wants a schedule whose holder refers to the next one's enrollment, itself or through a session edit it waits for |
| SeatWaits.OneSeekerExactly | internal/repository/enrollment_repository.go:365-375 | with one assignment or resumption under way, a circle exists if and only if it holds the enrollment that the very schedule it wants leads to, as its owner does |
| SeatWaits.NoCircle | internal/repository/enrollment_repository.go:48-187 | no circle exists while nobody assigns or resumes to a private row and no session edit is about an enrollment being assigned or resumed |
| SeatWaits.OwnerCircleIsReachable | internal/usecase/schedule_usecase.go:575-581 | a permanent change of a private row and the assignment of its owner to it reach a circle |
| SeatWaits.AttendanceCircleIsReachable | internal/repository/schedule_change_guard.go:33-37 | a bulk attendance, the deletion of a group row and the resumption of one of its students reach a circle |
| ChatOutboxTheorems.CaptureNeverConflicts | internal/repository/private_chat_capture.go:65-98 | a captured version is never taken already, so a fresh event is always inserted |
| ChatOutboxTheorems.NextKeepsStore | internal/repository/private_chat_capture.go:43-134 | every step keeps versions distinct, approvals current, delivery in order and leases matched, and requests, versions and finished rows only accumulate |
| ChatDelivery.RunKeepsInv | internal/repository/private_chat_outbox.go:54-104 | over every run with any workers, crashes, expiries, requeues and clocks the ordering, fencing and counting invariants hold |
| ChatDelivery.DeliveredInOrder | internal/repository/private_chat_outbox.go:54-65 | a delivery of a version begins only when every smaller captured version of the request is sent or superseded |
| ChatDelivery.OneSendingPerRequest | internal/repository/private_chat_outbox.go:54-65 | at most one row of a request is being sent |
| ChatDelivery.FinishedForGood | internal/repository/private_chat_outbox.go:54-104 | sent and superseded rows never change again |
| ChatDelivery.ReopenedNeverAnnounced | internal/repository/private_chat_outbox.go:35-43 | an approval that does not pass the readiness gate now passes it in no later run |
| ChatDelivery.ReopeningShutsTheGate | internal/repository/private_chat_capture.go:125-131 | reopening an approved request shuts the gate for its approval and finishes its outbox row |
| ChatDelivery.SpentForGood | internal/repository/private_chat_outbox.go:66-68 | a token that lost its row changes no row through Finish in any later run |
| ChatDelivery.ReclaimFences | internal/repository/private_chat_outbox.go:54-68 | a new claim of a row fences off the worker whose lease it replaces |
| ChatDelivery.CompletedAtMostOnce | internal/repository/private_chat_outbox.go:66-68 | each claim is completed at most once |
| ChatDelivery.DeliveriesBounded | internal/usecase/private_chat.go:119-147 | between two requeues Deliver is called for an event at most twelve times, crashes after a claim included, and all calls are counted |
| ChatDelivery.TotalDeliveriesBounded | internal/usecase/private_chat.go:119-147 | so all calls for an event number at most twelve times one more than its requeues |
| ChatDelivery.DelaysMonotoneAndBounded | internal/usecase/private_chat.go:143 | retry delays start at five seconds, double nine times and end at 2560 seconds |
| ChatOutcomes.AttemptSettled | internal/usecase/private_chat.go:119-147 | a worker that still holds its lease leaves its row sent if the delivery was accepted, else pending and due again after five seconds doubled for each attempt before, nine times at most, or failed from the twelfth attempt on; any other row and a lost lease are left alone |
| ChatOutcomes.NotSettledEarly | internal/usecase/private_chat.go:119-147 | a worker that may still deliver does not settle its row |
| ChatOutcomes.GateThenDeliver | internal/usecase/private_chat.go:119-147 | an event is delivered if and only if its subject is there, it may be announced and at most twelve attempts were made |
| ChatOutcomes.ClaimableExactly | internal/repository/private_chat_outbox.go:54-65 | a row is claimable if and only if it is pending or leased, its time has come, and every smaller version of the request was sent or superseded |
| ChatOutcomes.RejectedExactly | internal/repository/private_chat_capture.go:136-170 | a pending request is rejected at its next version with one event due at once; any other is refused |
| ChatOutcomes.ApprovedExactly | internal/repository/private_chat_capture.go:109-134 | a request is approved at its next version with one event due at once, by a parent only after a rejection with a recommendation; approving again changes nothing |
| ChatOutcomes.StatusSetExactly | internal/repository/private_chat_capture.go:109-134 | any other status keeps version and rows, except that leaving approval moves to the next version and supersedes exactly the approval that was not sent |
| ChatRecords.ApprovedIsInOutbox | internal/repository/private_chat_capture.go:109-134 | an approved request always has its approval at its current version in the outbox, and it passes the gate |
| ChatRecords.SentWasDelivered | internal/usecase/private_chat.go:136-148 | a row is sent only after a delivery of it, and waits only with attempts left |
| ChatRecords.NextTells | internal/repository/private_chat_capture.go:43-98 | version 0 is the creation and nothing else is; an acceptance follows a recommendation; an approval is captured with the approving transaction |
| ChatWorker.PassIsARun | internal/usecase/private_chat.go:119-155 | a worker pass is a run of the interleaved system |
| ChatWorker.TurnSettles | internal/usecase/private_chat.go:119-147 | every turn of a pass settles the row it took by the answer it got, and no other |
| ChatWorker.PassTakesAll | internal/usecase/private_chat.go:119-155 | a pass goes on until its turns are used up or nothing may be claimed |
| ChatWorker.NothingOrFirst | internal/repository/private_chat_outbox.go:54-65 | of the claimable rows the one created first is taken, the id settling ties, and none only if there is none |
| ChatWorker.PrivateChatStore.CreateRequest | internal/repository/private_chat_capture.go:99-108 | the request and its version 0 event, or neither |
| ChatWorker.PrivateChatStore.RejectRequest | internal/repository/private_chat_capture.go:136-170 | both rejections of a pending request, with the bumped version and its event, or no change |
| ChatWorker.PrivateChatStore.SetStatus | internal/repository/private_chat_capture.go:109-134 | the status change with its bump, capture, supersede or roll-back |
| ChatWorker.PrivateChatStore.Capture | internal/repository/private_chat_capture.go:43-98 | bumps the version when asked and inserts the event with its pending row |
| ChatWorker.PrivateChatStore.SupersedeCurrent | internal/repository/private_chat_capture.go:125-131 | supersedes exactly the unsent row of the current version |
| ChatWorker.PrivateChatStore.Claim | internal/repository/private_chat_outbox.go:54-65 | takes the oldest claimable row, or nothing when there is none |
| ChatWorker.PrivateChatStore.RunOnce | internal/usecase/private_chat.go:119-155 | a bounded pass: claim, gate, deliver while attempts are left, finish with the verdict and delay |
| Notifications.RunKeeps | internal/repository/parent_notification_repository.go:38-79 | every run with any workers, crashes, expiries and stale reminders keeps the invariant of claims, sends and leases |
| Notifications.SendsBounded | internal/usecase/parent_notification_worker.go:60-70 | the sender is called at most twelve times for a notification |
| Notifications.EmailsStopInTime | internal/usecase/parent_notification_worker.go:58-62 | no email is sent 23 hours or more after its first attempt, by the sending worker's clock |
| Notifications.SentWasSent | internal/usecase/parent_notification_worker.go:58-75 | a row is sent only after the sender was called, and waits only with attempts left |
| Notifications.SpentForGood | internal/repository/parent_notification_repository.go:74-79 | a worker whose lease was finished or taken over changes nothing later |
| Notifications.FinishSpends | internal/repository/parent_notification_repository.go:74-79 | finishing spends the token |
| Notifications.ReclaimSpends | internal/repository/parent_notification_repository.go:38-79 | a new claim spends the token it replaces |
| Notifications.DelaysMonotoneAndBounded | internal/usecase/parent_notification_worker.go:65-68 | retry delays start at five seconds, double and stop at an hour |
| NotificationOutcomes.AttemptSettled | internal/usecase/parent_notification_worker.go:45-81 | a worker sends unless attempts or an email's time ran out, and leaves the row it still holds failed, sent, or due again after five seconds doubled for each attempt before, an hour at most, failed from the twelfth on |
| NotificationWorker.PassIsARun | internal/usecase/parent_notification_worker.go:45-81 | a worker pass, stale reminders included, is a run of the interleaved system |
| NotificationWorker.TurnSettles | internal/usecase/parent_notification_worker.go:45-81 | every turn of a pass settles the row it took by the answer it got, and no other |
| NotificationWorker.PassTakesAll | internal/usecase/parent_notification_worker.go:45-81 | a pass goes on until its turns are used up or nothing may be claimed |
| NotificationWorker.NothingOrFirst | internal/repository/parent_notification_repository.go:55-72 | of the claimable rows the first by availability, creation and id is taken, and none only if there is none |
| NotificationWorker.ParentNotificationStore.Claim | internal/repository/parent_notification_repository.go:38-72 | fails the reminders that went stale, then takes the due row that comes first by availability, creation and id, and keeps the time of the first attempt |
| NotificationWorker.ParentNotificationStore.RunOnce | internal/usecase/parent_notification_worker.go:45-81 | a bounded pass: claim, stop or send, finish with the verdict and delay |
| PrivateSlots.ClockRoundTrip | internal/usecase/private_schedule_request_usecase.go:67-74 | a time is accepted exactly when it is the canonical text HH:MM:SS of a second of the day |
| PrivateSlots.Validate | internal/usecase/private_schedule_request_usecase.go:58-86 | accepts if and only if there are one to fifty slots, all well formed, no two of one day overlapping |
| PrivateSlots.GroupByDay | internal/usecase/private_schedule_request_usecase.go:62-76 | refuses exactly the malformed slots and groups the others by day in order |
| PrivateSlots.CheckDay | internal/usecase/private_schedule_request_usecase.go:77-84 | sorting by start and comparing neighbours accepts exactly the pairwise disjoint days |
| PrivateSlots.AnySortAgrees | internal/usecase/private_schedule_request_usecase.go:78-84 | the verdict is the same for every sorted permutation, however ties fall |
| PrivateSlots.GroupsDisjointExactly | internal/usecase/private_schedule_request_usecase.go:62-84 | grouping by day loses no overlapping pair and invents none |
| PrivateSlots.SelectedSlots | internal/usecase/private_slot_selection.go:21-48 | the selection or the error the code answers, snapshot before emptiness before indexes |
| PrivateSlots.SameSlots | internal/usecase/private_slot_selection.go:5-15 | element-wise comparison is equality |
| PrivateSlots.ChosenExactly | internal/usecase/private_slot_selection.go:41-47 | a selection is the proposal at exactly the requested indexes, in proposal order |
| PrivateSlots.SelectionAcceptedAgain | internal/usecase/private_slot_selection.go:21-48 | every valid selection from an acceptable proposal is acceptable |
| PurchaseOutcomes.SelectedExactly | internal/usecase/private_slot_selection.go:21-48 | a selection is the earlier one or the whole proposal when none is named; else it must be made on this proposal and name slots of it, none twice, and picks exactly those in proposal order |
| PurchaseOutcomes.AcceptableExactly | internal/usecase/private_schedule_request_usecase.go:58-86 | acceptable is one to fifty slots of a weekday with clock times in order, no two of a day overlapping |
| PrivatePurchase.OnePurchase | internal/usecase/private_schedule_request_usecase.go:107-324 | over every interleaving of approvals, acceptances, retries, refusals and reopenings, a request owns at most one enrollment, with exactly one schedule row per chosen slot |
| PrivatePurchase.WrittenOnce | internal/repository/private_schedule_request_repository.go:165-178 | the enrollment, its schedule rows and the approved slots are never rewritten |
| PrivatePurchase.OneInvoiceAnswered | internal/usecase/private_schedule_request_usecase.go:246-324 | all answers that carry a transaction carry one transaction and one checkout, the stored ones, even if billing answered differently |
| PurchaseOutcomes.RetryConcludes | internal/usecase/private_schedule_request_usecase.go:144-155 | in every reachable state in which the request is approved and its enrollment not dropped, the same call, with no selection or the approved one, changes nothing in its first transaction and answers the stored invoice, or stores and answers the one billing gives |
| PurchaseOutcomes.CallConcludes | internal/usecase/private_schedule_request_usecase.go:246-324 | what an uninterrupted call stores and answers for every state of the enrollment and every answer of billing |
| PurchaseOutcomes.PrepareFirst | internal/usecase/private_schedule_request_usecase.go:180-244 | a first purchase succeeds if and only if class, student, selection, slots, limit and duplicates allow it; it creates one pending enrollment and one row per slot, and the first failing check answers |
| PurchaseOutcomes.PrepareAgain | internal/usecase/private_schedule_request_usecase.go:155-177 | a request with an enrollment from before is approved again while that waits for its invoice, restored after a fee refusal unless the student has another place, and refused otherwise |
| PurchaseOutcomes.PrepareApproved | internal/usecase/private_schedule_request_usecase.go:144-155 | a call on an approved request goes on with its enrollment unless that was dropped for another reason than the fee |
| PrivatePurchase.AnnouncedAreScheduledExactly | internal/usecase/private_schedule_request_usecase.go:155-177 | the slots an approval is announced with are the scheduled ones if and only if the request was not first approved for other slots than it now recommends |
| PrivatePurchase.AcceptAfterRefusalKeepsOldSlots | internal/usecase/private_schedule_request_usecase.go:155-177 | after a fee refusal, a rejection with other slots and an acceptance, the announced slots are the new ones and the schedule rows the old ones |
| PrivatePurchase.OldSlotsAreReachable | internal/usecase/private_schedule_request_usecase.go:155-177 | that state is reached from a new request by approve, refusal, reset, reject, accept, for any two different lists of slots |
| PrivatePurchase.RefusalReopens | internal/usecase/private_schedule_request_usecase.go:264-292 | after a fee refusal and the reset, the same purchase restores the same enrollment with no new rows |
| PrivatePurchase.ReopensExactly | internal/usecase/private_schedule_request_usecase.go:144-155 | a request approved for a fee-refused enrollment can leave approval again if and only if some call in progress is about to drop or reset for that refusal, or read an enrollment that was neither fee-refused nor carried a complete invoice |
| PrivatePurchase.StuckForGood | internal/usecase/private_schedule_request_usecase.go:144-155 | otherwise no later step of any call changes the request, its enrollment or its rows |
| PrivatePurchase.StuckIsReachable | internal/usecase/private_schedule_request_usecase.go:264-292 | approve, refusal, drop and crash reach a state from which it never leaves approval |
| PurchaseService.UninterruptedIsARun | internal/usecase/private_schedule_request_usecase.go:103-325 | an uninterrupted call is one of the interleavings |
| PurchaseService.PrivatePurchaseUsecase.PrepareCall | internal/usecase/private_schedule_request_usecase.go:111-244 | the first transaction: approve, retry, restore or create, or the error and no change, given what the class, student and duplicate lookups answer |
| PurchaseService.PrivatePurchaseUsecase.Purchase | internal/usecase/private_schedule_request_usecase.go:103-325 | the whole call is the uninterrupted run of its statements, with its answer |
| PurchaseSchedules.PurchaseCreates | internal/usecase/private_schedule_request_usecase.go:228-241 | the purchase of acceptable slots always creates one private row per slot, valid from that day and generated through its month |
| PurchaseSchedules.LessonsAreExactlyTheSlots | internal/usecase/private_schedule_request_usecase.go:228-241 | with the worker on time, a slot's lessons are exactly the days on its weekday from the purchase through the last horizon |
| PurchaseSchedules.LessonsNeverOverlap | internal/usecase/private_schedule_request_usecase.go:58-86 | however the worker runs, no two lessons of one purchase on a date overlap |
| Cancellation.CancelledIsNeverPaid | internal/usecase/enrollment_usecase.go:70-152 | a transaction that a successful cancellation withdrew or found expired is never paid, whatever happens later |
| Cancellation.StaysDroppedExactly | internal/usecase/enrollment_usecase.go:215-219 | a dropped enrollment stays dropped over all continuations if and only if no signup under way read it before it was dropped and it is not a private one refused for the platform fee |
| Cancellation.CancelledStaysDroppedExactly | internal/usecase/enrollment_usecase.go:98-126 | what a successful cancellation dropped stays dropped over all continuations if and only if no signup under way read it before, for it never carries a refusal |
| Cancellation.CancelledMayReturn | internal/usecase/enrollment_usecase.go:290-299 | an interleaving in which the signup that created the invoice saves its earlier copy after a successful cancellation and turns the enrollment back to pending |
| Cancellation.WithdrawalSafeExactly | internal/usecase/enrollment_usecase.go:134-152 | when billing lets a cancellation go on, payment is excluded for good if and only if billing held a transaction at the withdrawal |
| Cancellation.CancellationExactly | internal/usecase/enrollment_usecase.go:70-152 | by itself, a cancellation fails and changes nothing for a started or completed enrollment, a paid or an unaccepted expired transaction; otherwise an unpaid transaction is withdrawn and a pending enrollment dropped |
| Cancellation.SignupThenPayment | internal/usecase/enrollment_usecase.go:285-301 | by itself, a signup stores its one unpaid transaction and keeps the enrollment pending; a payment then starts it, and nothing else does |
| Cancellation.PaidIsUntouched | internal/usecase/enrollment_usecase.go:138-152 | a cancellation that has not reached billing when the payment settles never succeeds and never changes the enrollment |
| Cancellation.StartedIsPaid | internal/usecase/enrollment_usecase.go:83-96 | no interleaving leaves a started enrollment whose payment was withdrawn |
| Cancellation.CancelledBeforeInvoiceMayBePaid | internal/usecase/enrollment_usecase.go:138-152 | with no transaction at the withdrawal, an interleaving ends with a dropped enrollment that is paid for |
| Attendance.DedupeBulkItems | internal/usecase/attendance_usecase.go:409-421 | the loop yields one item per enrollment, in first-seen order, with the last status |
| Attendance.DedupeExactly | internal/usecase/attendance_usecase.go:409-421 | distinct enrollments, the same ones as the request's, each with its last status |
| Attendance.NamesOfPrefix | internal/usecase/attendance_usecase.go:409-421 | what a prefix of the request names comes first, in the same order |
| Attendance.UpsertAllWrites | internal/repository/attendance_repository.go:112-117 | what a list of items makes of the table, key by key; existing rows keep their ids and other keys are untouched |
| Attendance.BulkIsOneByOne | internal/usecase/attendance_usecase.go:142-168 | upserting the de-duplicated list in one statement never conflicts with itself and leaves what the original items one by one would |
| Attendance.RepeatKeepsRows | internal/repository/attendance_repository.go:78-131 | sending the same request again leaves the very same rows |
| Attendance.DuplicateRefused | internal/repository/attendance_repository.go:112-117 | the single statement refuses exactly the lists de-duplication would change |
| Attendance.AttendanceRepository.Upsert | internal/repository/attendance_repository.go:78-131 | writes all items or refuses and writes none |
| Attendance.AttendanceRepository.CreateBulk | internal/usecase/attendance_usecase.go:142-168 | the whole request: session, cancellation, tutor and cohort checks in the code's order, then what the items one by one would leave, or the error and no change |
| LikePattern.EscapeLikePattern | internal/repository/search.go:5-9 | every backslash, percent sign and underscore gets a backslash, in one pass |
| LikePattern.SearchIsContains | internal/repository/search.go:5-9 | a text matches the escaped value between percent signs if and only if the value occurs in it (PostgreSQL manual section 9.7.1) |

## Left out

- OneScheduledSessionPerDate: is about runs whose session saves are admissible; `ScheduleSessions.SaveSafeExactly` says exactly which saves those are, and `ScheduleSessions.RevivedIsReachable` what another one does.
- NothingRevived: has the same hypothesis.
- TutorChangeCommutes: is about the branch that splits the row; the in-place assignment of a first tutor keeps one row and is covered by the run results.
- PrepareCall: takes the answers of the class, student and duplicate lookups as inputs; the sessions of the new rows are in `PurchaseSchedules`.
- DeliveriesBounded: counts calls of Deliver, not messages seen by the receiver; a worker with an expired lease may repeat a delivery, which the receiver must recognise by its event.
- SafeUnderInterleaving: treats the last statement of a transaction and its commit as one step, and classes as unchanging while transactions run.
- CircleExactly: is about waits for enrollment, schedule and session rows; a change or generation is taken to insert a session, and waits on unique indexes, request rows and class rows are not part of it.
- LessonsNeverOverlap: is about lessons the worker generates; a reschedule may move a lesson onto another one, which the code does not check.
- Schedules without a watermark: the due rule and one generation step handle them, the run invariant requires a watermark, which every creation path sets.
- Time zones and daylight saving: all dates are calendar dates, and the database, worker and request clocks are separate inputs.
- Tenant and parent scoping, membership and class ownership: they enter as inputs where they decide a modelled write.
- Deleting a class: the schedule model deletes its rows and sessions; in the seat model classes do not change, so a pending enrollment, which the deletion does not look at, keeps its seat on a row that is gone.
- Rescheduling a session that is itself a replacement, and cohort lookup along such chains.
- The bodies and links of announcements, and the invoice part of their readiness.
- Which session reminders are stale is arbitrary, because it depends on database functions that are not part of this model.
- Changes of a private schedule row after the purchase: the purchase model keeps the rows as created.
- Payment amounts, vouchers, billing cycles and payment methods.
- Listing, searching and pagination queries, catalog and distance queries, notes, reports, reviews and students.
- HTTP routes, handlers, configuration, migrations, logging and JSON.
- Catalog policy caching and idempotent class creation: they would add only easier members.
