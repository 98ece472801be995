// The enrollment table: seats, the one-live-enrollment rule and the life cycle. Each
// operation is one transaction, one atomic step on the tables.
module Enrollments {
  import opened Common
  import opened Calendar

  datatype Status = Pending | Active | Suspended | Completed | Dropped

  datatype PaymentStatus = PaymentPending | PlatformFeeRejected | VoucherRejected

  datatype Enrollment = Enrollment(
    student: Id, class_: Id, schedule: Option<Id>, status: Status,
    payment: PaymentStatus, transaction: Option<Id>, checkout: Option<string>, deleted: bool)

  datatype ClassRow = ClassRow(isGroup: bool, published: bool, open: bool, deleted: bool)

  // owner is the enrollment a private row belongs to.
  datatype ScheduleRow =
    ScheduleRow(class_: Id, capacity: int, validUntil: Option<Day>, deleted: bool, owner: Option<Id>)

  datatype Tables =
    Tables(classes: map<Id, ClassRow>, schedules: map<Id, ScheduleRow>, enrollments: map<Id, Enrollment>)

  datatype Error =
    | ClassNotFound
    | ClassNotEnrollable
    | ScheduleNotFound
    | ScheduleClassMismatch
    | ScheduleEnded
    | ScheduleFull
    | ScheduleRequired
    | DuplicateEnrollment
    | DuplicateKey
    | EnrollmentNotFound
    | InvalidTransition
    | SuspendedConflict
    | SeatsConflict
    | NotRestorable

  // ---- Seats and live enrollments ----

  // A pending or active enrollment that is not deleted holds a seat.
  predicate Live(e: Enrollment) {
    !e.deleted && (e.status == Pending || e.status == Active)
  }

  predicate HoldsSeat(e: Enrollment, schedule: Id) {
    Live(e) && e.schedule == Some(schedule)
  }

  function SeatSet(enrollments: map<Id, Enrollment>, schedule: Id): set<Id> {
    set id | id in enrollments && HoldsSeat(enrollments[id], schedule)
  }

  function Seats(t: Tables, schedule: Id): nat {
    |SeatSet(t.enrollments, schedule)|
  }

  ghost predicate SeatSafe(t: Tables) {
    forall s :: s in t.schedules ==> Seats(t, s) <= t.schedules[s].capacity
  }

  // The rows covered by idx_student_class_active never repeat a student and class.
  ghost predicate OneLive(t: Tables) {
    forall a, b :: a in t.enrollments && b in t.enrollments && a != b && Live(t.enrollments[a])
                   && Live(t.enrollments[b]) ==>
      t.enrollments[a].student != t.enrollments[b].student || t.enrollments[a].class_ != t.enrollments[b].class_
  }

  // The foreign key of enrollments.schedule_id.
  ghost predicate SchedulesExist(t: Tables) {
    forall id :: id in t.enrollments && t.enrollments[id].schedule.Some? ==>
      t.enrollments[id].schedule.value in t.schedules
  }

  // An enrollment's schedule is one of its class.
  ghost predicate ClassesMatch(t: Tables) {
    forall id :: id in t.enrollments && t.enrollments[id].schedule.Some?
                 && t.enrollments[id].schedule.value in t.schedules ==>
      t.schedules[t.enrollments[id].schedule.value].class_ == t.enrollments[id].class_
  }

  ghost predicate Inv(t: Tables) {
    SeatSafe(t) && OneLive(t) && SchedulesExist(t)
  }

  // Another live enrollment of the same student in the same class.
  predicate Duplicates(t: Tables, id: Id, e: Enrollment) {
    exists other :: other in t.enrollments && other != id && Live(t.enrollments[other])
      && t.enrollments[other].student == e.student && t.enrollments[other].class_ == e.class_
  }

  // Writing a row fails on the partial unique index.
  function Write(t: Tables, id: Id, e: Enrollment): Result<Tables, Error> {
    if Live(e) && Duplicates(t, id, e) then Err(DuplicateEnrollment) else Ok(t.(enrollments := t.enrollments[id := e]))
  }

  function SetStatus(t: Tables, id: Id, status: Status): Tables
    requires id in t.enrollments
  {
    t.(enrollments := t.enrollments[id := t.enrollments[id].(status := status)])
  }

  predicate Found(t: Tables, id: Id) {
    id in t.enrollments && !t.enrollments[id].deleted
  }

  predicate Ended(row: ScheduleRow, today: Day) {
    row.validUntil.Some? && row.validUntil.value < today
  }

  // ---- Operations that raise a seat count ----

  // The checks under the schedule lock that a signup, a resume and an assignment share.
  function CheckSeat(t: Tables, schedule: Id, today: Day): Option<Error>
    requires schedule in t.schedules
  {
    if Ended(t.schedules[schedule], today) then Some(ScheduleEnded)
    else if Seats(t, schedule) >= t.schedules[schedule].capacity then Some(ScheduleFull)
    else None
  }

  predicate ScheduleFound(t: Tables, schedule: Id) {
    schedule in t.schedules && !t.schedules[schedule].deleted
  }

  function CheckSignup(t: Tables, id: Id, e: Enrollment, today: Day): Option<Error> {
    if e.class_ !in t.classes || t.classes[e.class_].deleted then Some(ClassNotFound)
    else if !t.classes[e.class_].published || !t.classes[e.class_].open then Some(ClassNotEnrollable)
    else if e.schedule.Some? then
      var s := e.schedule.value;
      if !ScheduleFound(t, s) || t.schedules[s].class_ != e.class_ then Some(ScheduleClassMismatch)
      else if Ended(t.schedules[s], today) then Some(ScheduleEnded)
      else if Duplicates(t, id, e) then Some(DuplicateEnrollment)
      else if Seats(t, s) >= t.schedules[s].capacity then Some(ScheduleFull)
      else None
    else if t.classes[e.class_].isGroup then Some(ScheduleRequired)
    else if Duplicates(t, id, e) then Some(DuplicateEnrollment)
    else None
  }

  function NewEnrollment(student: Id, class_: Id, schedule: Option<Id>): Enrollment {
    Enrollment(student, class_, schedule, Pending, PaymentPending, None, None, false)
  }

  function Signup(t: Tables, id: Id, e: Enrollment, today: Day): Result<Tables, Error> {
    if id in t.enrollments then Err(DuplicateKey)
    else
      var error := CheckSignup(t, id, e, today);
      if error.Some? then Err(error.value) else Write(t, id, e)
  }

  function CheckResume(t: Tables, id: Id, today: Day): Option<Error>
    requires id in t.enrollments
  {
    var e := t.enrollments[id];
    if e.schedule.Some?
       && (!ScheduleFound(t, e.schedule.value) || t.schedules[e.schedule.value].class_ != e.class_)
      then Some(SuspendedConflict)
    else if e.schedule.Some? && Ended(t.schedules[e.schedule.value], today) then Some(SuspendedConflict)
    else if e.schedule.Some? && Seats(t, e.schedule.value) >= t.schedules[e.schedule.value].capacity
      then Some(ScheduleFull)
    else if Duplicates(t, id, e) then Some(SuspendedConflict)
    else None
  }

  // Resuming an active enrollment answers it unchanged.
  function Resume(t: Tables, id: Id, today: Day): Result<Tables, Error> {
    if !Found(t, id) then Err(EnrollmentNotFound)
    else if t.enrollments[id].status == Active then Ok(t)
    else if t.enrollments[id].status != Suspended then Err(InvalidTransition)
    else
      var error := CheckResume(t, id, today);
      if error.Some? then Err(error.value) else Ok(SetStatus(t, id, Active))
  }

  function CheckAssign(t: Tables, id: Id, schedule: Id, today: Day): Option<Error> {
    if !Found(t, id) then Some(EnrollmentNotFound)
    else if t.enrollments[id].status != Pending || t.enrollments[id].schedule.Some? then Some(InvalidTransition)
    else if !ScheduleFound(t, schedule) then Some(ScheduleNotFound)
    else if t.schedules[schedule].class_ != t.enrollments[id].class_ then Some(ScheduleClassMismatch)
    else CheckSeat(t, schedule, today)
  }

  function Assign(t: Tables, id: Id, schedule: Id, today: Day): Result<Tables, Error> {
    var error := CheckAssign(t, id, schedule, today);
    if error.Some? then Err(error.value)
    else Ok(t.(enrollments := t.enrollments[id := t.enrollments[id].(schedule := Some(schedule))]))
  }

  // ---- Operations that keep or lower it ----

  function Activate(t: Tables, id: Id): Result<Tables, Error> {
    if !Found(t, id) then Err(EnrollmentNotFound)
    else match t.enrollments[id].status
      case Pending => Ok(SetStatus(t, id, Active))
      case Active => Ok(t)
      case _ => Err(InvalidTransition)
  }

  function Release(t: Tables, id: Id): Result<Tables, Error> {
    if !Found(t, id) then Err(EnrollmentNotFound)
    else match t.enrollments[id].status
      case Pending => Ok(SetStatus(t, id, Dropped))
      case Dropped => Ok(t)
      case Active => Ok(t)
      case _ => Err(InvalidTransition)
  }

  function Suspend(t: Tables, id: Id): Result<Tables, Error> {
    if !Found(t, id) then Err(EnrollmentNotFound)
    else match t.enrollments[id].status
      case Active => Ok(SetStatus(t, id, Suspended))
      case Suspended => Ok(t)
      case _ => Err(InvalidTransition)
  }

  function End(t: Tables, id: Id): Result<Tables, Error> {
    if !Found(t, id) then Err(EnrollmentNotFound)
    else match t.enrollments[id].status
      case Active => Ok(SetStatus(t, id, Dropped))
      case Suspended => Ok(SetStatus(t, id, Dropped))
      case Dropped => Ok(t)
      case _ => Err(InvalidTransition)
  }

  // The parent's cancellation, after billing withdrew the payment.
  function CancelPending(t: Tables, id: Id): Result<Tables, Error> {
    if !Found(t, id) then Err(EnrollmentNotFound)
    else if t.enrollments[id].status != Pending then Err(InvalidTransition)
    else Ok(SetStatus(t, id, Dropped))
  }

  // An enrollment whose invoice billing refused; one that left pending is left alone.
  function DropRejected(t: Tables, id: Id, payment: PaymentStatus): Result<Tables, Error> {
    if !Found(t, id) then Err(EnrollmentNotFound)
    else if t.enrollments[id].status != Pending then Ok(t)
    else Ok(t.(enrollments := t.enrollments[id := t.enrollments[id].(status := Dropped, payment := payment)]))
  }

  // Only an enrollment dropped for the platform fee may come back.
  function Restore(t: Tables, id: Id): Result<Tables, Error> {
    if !Found(t, id) || t.enrollments[id].status != Dropped || t.enrollments[id].payment != PlatformFeeRejected
      then Err(NotRestorable)
    else Write(t, id, t.enrollments[id].(status := Pending, payment := PaymentPending))
  }

  function UpdatePayment(t: Tables, id: Id, transaction: Id, checkout: string): Result<Tables, Error> {
    if !Found(t, id) || t.enrollments[id].transaction.Some? || !Live(t.enrollments[id]) then Err(InvalidTransition)
    else Ok(t.(enrollments := t.enrollments[id := t.enrollments[id].(transaction := Some(transaction),
                                                                     checkout := Some(checkout))]))
  }

  // The invoice details of a public or tenant signup, as a write of the payment fields only.
  function SavePayment(t: Tables, id: Id, transaction: Id, checkout: string): Result<Tables, Error> {
    if !Found(t, id) then Err(EnrollmentNotFound)
    else Ok(t.(enrollments := t.enrollments[id := WithInvoice(t.enrollments[id], transaction, checkout)]))
  }

  function WithInvoice(e: Enrollment, transaction: Id, checkout: string): Enrollment {
    e.(transaction := Some(transaction), checkout := Some(checkout), payment := PaymentPending)
  }

  // The same write as the code makes it: the whole row as it was before billing was called.
  function StaleSave(t: Tables, id: Id, earlier: Enrollment, transaction: Id, checkout: string): Result<Tables, Error> {
    Write(t, id, WithInvoice(earlier, transaction, checkout))
  }

  // A permanent change of a schedule row: the new row takes over its live enrollments.
  // A tutor change keeps the capacity and makes no seat check of its own.
  function Transferred(enrollments: map<Id, Enrollment>, class_: Id, from: Id, target: Id): map<Id, Enrollment> {
    map id | id in enrollments ::
      if HoldsSeat(enrollments[id], from) && enrollments[id].class_ == class_
        then enrollments[id].(schedule := Some(target))
        else enrollments[id]
  }

  function Replace(t: Tables, from: Id, target: Id, capacity: int, effective: Day): Result<Tables, Error> {
    if !ScheduleFound(t, from) then Err(ScheduleNotFound)
    else if Seats(t, from) > capacity then Err(SeatsConflict)
    else if target in t.schedules then Err(DuplicateKey)
    else ReplaceRow(t, from, target, capacity, effective)
  }

  function ReplaceForTutor(t: Tables, from: Id, target: Id, effective: Day): Result<Tables, Error> {
    if !ScheduleFound(t, from) then Err(ScheduleNotFound)
    else if target in t.schedules then Err(DuplicateKey)
    else ReplaceRow(t, from, target, t.schedules[from].capacity, effective)
  }

  function ReplaceRow(t: Tables, from: Id, target: Id, capacity: int, effective: Day): (r: Result<Tables, Error>)
    requires from in t.schedules
    ensures r.Ok?
  {
    var row := t.schedules[from];
    Ok(Tables(t.classes,
              t.schedules[from := row.(validUntil := Some(effective - 1))][target := ScheduleRow(row.class_, capacity,
                  row.validUntil, false, row.owner)],
              Transferred(t.enrollments, row.class_, from, target)))
  }

  // A schedule with reserved seats cannot be deleted.
  function RemoveSchedule(t: Tables, schedule: Id): Result<Tables, Error> {
    if !ScheduleFound(t, schedule) then Err(ScheduleNotFound)
    else if Seats(t, schedule) > 0 || Seats(t, schedule) > t.schedules[schedule].capacity then Err(SeatsConflict)
    else Ok(t.(schedules := t.schedules[schedule := t.schedules[schedule].(deleted := true)]))
  }

  // ---- Runs ----

  datatype Op =
    | OpSignup(id: Id, student: Id, class_: Id, seat: Option<Id>, today: Day)
    | OpResume(id: Id, today: Day)
    | OpAssign(id: Id, schedule: Id, today: Day)
    | OpActivate(id: Id)
    | OpRelease(id: Id)
    | OpSuspend(id: Id)
    | OpEnd(id: Id)
    | OpCancel(id: Id)
    | OpDropRejected(id: Id, payment: PaymentStatus)
    | OpRestore(id: Id)
    | OpUpdatePayment(id: Id, transaction: Id, checkout: string)
    | OpSavePayment(id: Id, transaction: Id, checkout: string)
    | OpReplace(source: Id, target: Id, capacity: int, effective: Day)
    | OpReplaceForTutor(source: Id, target: Id, effective: Day)
    | OpRemoveSchedule(schedule: Id)
    | OpGenerate(schedule: Id)
    | OpEditSession(schedule: Id, about: Option<Id>, writes: bool)

  // The worker's step and an edit of a session or of its attendance: they write no enrollment,
  // but lock schedule and session rows.
  predicate WritesNothing(op: Op) {
    op.OpGenerate? || op.OpEditSession?
  }

  function Answer(t: Tables, op: Op): Result<Tables, Error> {
    match op
    case OpSignup(id, student, class_, seat, today) => Signup(t, id, NewEnrollment(student, class_, seat), today)
    case OpResume(id, today) => Resume(t, id, today)
    case OpAssign(id, schedule, today) => Assign(t, id, schedule, today)
    case OpActivate(id) => Activate(t, id)
    case OpRelease(id) => Release(t, id)
    case OpSuspend(id) => Suspend(t, id)
    case OpEnd(id) => End(t, id)
    case OpCancel(id) => CancelPending(t, id)
    case OpDropRejected(id, payment) => DropRejected(t, id, payment)
    case OpRestore(id) => Restore(t, id)
    case OpUpdatePayment(id, transaction, checkout) => UpdatePayment(t, id, transaction, checkout)
    case OpSavePayment(id, transaction, checkout) => SavePayment(t, id, transaction, checkout)
    case OpReplace(source, target, capacity, effective) => Replace(t, source, target, capacity, effective)
    case OpReplaceForTutor(source, target, effective) => ReplaceForTutor(t, source, target, effective)
    case OpRemoveSchedule(schedule) => RemoveSchedule(t, schedule)
    case _ => Ok(t)
  }

  // A failed transaction changes nothing.
  function Apply(t: Tables, op: Op): Tables {
    var r := Answer(t, op);
    if r.Ok? then r.value else t
  }

  function Run(t: Tables, ops: seq<Op>): Tables
    decreases ops
  {
    if ops == [] then t else Run(Apply(t, ops[0]), ops[1..])
  }
}
