// The schedule and session tables and the transactions that change them: creation,
// the worker's step, permanent schedule and tutor changes, one-off changes and
// deletion. Each is one atomic step from one database state to the next.
module ScheduleVersions {
  import opened Common
  import opened Calendar
  import opened Generation

  // A replacement created by a one-off reschedule; it is bound to no schedule row and
  // keeps the row and date of the session it replaces.
  datatype OneOff = OneOff(originSchedule: Id, originDate: Day, date: Day, session: Session)

  // Sessions are stored under their schedule row and date, the columns of the unique
  // index uq_class_sessions_schedule_date, soft-deleted rows included. The last four
  // fields are history that decides no transaction: a tag for the lineage a row descends
  // from through any permanent change, a tag for the family it descends from through
  // tutor changes alone, each lineage's first row as created, and the next unused tag.
  datatype Db = Db(
    schedules: map<Id, Schedule>,
    sessions: map<Id, map<Day, Session>>,
    oneOffs: seq<OneOff>,
    privateClasses: set<Id>,
    deletedClasses: set<Id>,
    liveEnrollments: set<Id>,
    lineage: map<Id, nat>,
    family: map<Id, nat>,
    original: map<nat, Schedule>,
    nextTag: nat)

  datatype Error =
    | DuplicateKey
    | ClassNotFound
    | ClassForbidden
    | ClassActiveEnrollments
    | ScheduleForbidden
    | InvalidScheduleChange
    | PrivateScheduleCapacity
    | TutorNotEligible
    | StartNotBeforeEnd
    | ValidFromAfterUntil
    | EnrollmentRequired
    | InvalidEnrollment
    | ScheduleNotFound
    | SessionNotFound
    | InvalidEffectiveDate
    | HistoryConflict
    | SeatsConflict

  const MAX_CAPACITY := 2147483647

  predicate LiveScheduled(s: Session) {
    s.status == Scheduled && !s.deleted
  }

  predicate Known(db: Db, id: Id) {
    id in db.schedules && id in db.sessions
  }

  function RowOf(db: Db, id: Id): RowState
    requires Known(db, id)
  {
    RowState(db.schedules[id], db.sessions[id])
  }

  function SetRow(db: Db, id: Id, s: RowState): Db {
    db.(schedules := db.schedules[id := s.row], sessions := db.sessions[id := s.known])
  }

  function AddRow(db: Db, id: Id, s: RowState, lineage: nat, family: nat): Db {
    SetRow(db, id, s).(lineage := db.lineage[id := lineage], family := db.family[id := family])
  }

  function LineageOf(db: Db, id: Id): nat { if id in db.lineage then db.lineage[id] else db.nextTag }

  function FamilyOf(db: Db, id: Id): nat { if id in db.family then db.family[id] else db.nextTag }

  // A live row, as every lookup through the soft-delete scope sees it.
  predicate Found(db: Db, id: Id) {
    Known(db, id) && !db.schedules[id].deleted
  }

  // ---- Creation ----

  datatype NewSchedule = NewSchedule(
    class_: Id, enrollment: Option<Id>, enrollmentMatches: bool, tutor: Option<Id>, tutorActive: bool,
    capacity: int, location: Option<string>, dayOfWeek: int, start: Option<TimeOfDay>, end: Option<TimeOfDay>,
    validFrom: Option<Day>, validUntil: Option<Day>)

  function InitialSessions(row: Schedule, from: Day): map<Day, Session> {
    Fill(row, map[], from, EndOfMonth(from))
  }

  function CheckNew(db: Db, item: NewSchedule, now: Day): Option<Error> {
    var validFrom := if item.validFrom.Some? then item.validFrom.value else now;
    if item.class_ in db.privateClasses && item.capacity != 1 then Some(PrivateScheduleCapacity)
    else if !(1 <= item.dayOfWeek <= 7 && 1 <= item.capacity <= MAX_CAPACITY) then Some(InvalidScheduleChange)
    else if item.tutor.Some? && !item.tutorActive then Some(TutorNotEligible)
    else if !(item.start.Some? && item.end.Some? && item.start.value < item.end.value) then Some(StartNotBeforeEnd)
    else if item.validUntil.Some? && item.validUntil.value < validFrom then Some(ValidFromAfterUntil)
    else if item.class_ in db.privateClasses && item.enrollment.None? then Some(EnrollmentRequired)
    else if item.class_ in db.privateClasses && !item.enrollmentMatches then Some(InvalidEnrollment)
    else None
  }

  function CreateSchedule(db: Db, id: Id, item: NewSchedule, now: Day): Result<Db, Error> {
    var error := CheckNew(db, item, now);
    if error.Some? then Err(error.value)
    else if id in db.schedules then Err(DuplicateKey)
    else
      var validFrom := if item.validFrom.Some? then item.validFrom.value else now;
      var enrollment := if item.class_ in db.privateClasses then item.enrollment else None;
      var row := Schedule(item.class_, enrollment, item.tutor, item.capacity, item.location, item.dayOfWeek,
                          item.start.value, item.end.value, Some(validFrom), item.validUntil,
                          Some(EndOfMonth(validFrom)), false);
      Ok(AddRow(db, id, RowState(row, InitialSessions(row, validFrom)), db.nextTag, db.nextTag)
         .(original := db.original[db.nextTag := row], nextTag := db.nextTag + 1))
  }

  // ---- The worker's step ----

  // The class is not deleted and the owning enrollment, if any, is still live.
  predicate Visible(db: Db, row: Schedule) {
    !row.deleted && row.class_ !in db.deletedClasses && (row.enrollment.Some? ==>
        row.enrollment.value in db.liveEnrollments)
  }

  predicate DueRow(db: Db, id: Id, horizon: Day) {
    Known(db, id) && Visible(db, db.schedules[id]) && Due(db.schedules[id], horizon)
  }

  function WorkerStep(db: Db, id: Id, w: Window): Db {
    if DueRow(db, id, w.horizon) then SetRow(db, id, Generate(RowOf(db, id), w.monthStart, w.horizon)) else db
  }

  // ---- Permanent changes ----

  predicate CoversReplacement(row: Schedule, effective: Day) {
    InWindow(row, effective)
  }

  function Cancel(known: map<Day, Session>, from: Day): map<Day, Session> {
    map d | d in known :: if from <= d && LiveScheduled(known[d]) then known[d].(status := Cancelled) else known[d]
  }

  function Moved(known: map<Day, Session>, from: Day, tutor: Id): map<Day, Session> {
    map d | d in known && from <= d && LiveScheduled(known[d]) :: known[d].(tutor := tutor)
  }

  function Staying(known: map<Day, Session>, from: Day): map<Day, Session> {
    map d | d in known && !(from <= d && LiveScheduled(known[d])) :: known[d]
  }

  // Completed sessions and sessions with attendance are history.
  predicate HasHistory(known: map<Day, Session>, from: Day) {
    exists d :: d in known && from <= d && !known[d].deleted && (known[d].status == Completed || known[d].attended)
  }

  // ValidateChange, given the seats taken on the row.
  function CheckChange(known: map<Day, Session>, today: Day, effective: Day, occupied: nat, capacity: int,
                       deleting: bool): Option<Error> {
    if effective < today then Some(HistoryConflict)
    else if HasHistory(known, effective) then Some(HistoryConflict)
    else if occupied > capacity || (deleting && occupied > 0) then Some(SeatsConflict)
    else None
  }

  // newTutor: None keeps the tutor, Some(None) unassigns, Some(Some(t)) assigns t.
  datatype PermanentChange = PermanentChange(
    dayOfWeek: int, start: Option<TimeOfDay>, end: Option<TimeOfDay>, effective: Option<Day>,
    newCapacity: Option<int>, newLocation: Option<string>, newTutor: Option<Option<Id>>, tutorActive: bool)

  predicate ValidRequest(req: PermanentChange) {
    && req.start.Some? && req.end.Some? && req.start.value < req.end.value
    && 1 <= req.dayOfWeek <= 7 && req.effective.Some?
    && (req.newCapacity.Some? ==> 1 <= req.newCapacity.value <= MAX_CAPACITY)
    && (req.newLocation.Some? ==> |req.newLocation.value| <= 255)
  }

  function CheckPermanent(db: Db, id: Id, req: PermanentChange, today: Day, occupied: nat): Option<Error> {
    if !ValidRequest(req) then Some(InvalidScheduleChange)
    else if !Found(db, id) then Some(ScheduleNotFound)
    else
      var current := db.schedules[id];
      var effective := req.effective.value;
      var capacity := if req.newCapacity.Some? then req.newCapacity.value else current.capacity;
      if !CoversReplacement(current, effective) then Some(InvalidEffectiveDate)
      else if current.class_ in db.privateClasses && capacity != 1 then Some(PrivateScheduleCapacity)
      else
        var guard := CheckChange(db.sessions[id], today, effective, occupied, capacity, false);
        if guard.Some? then guard
        else if req.newTutor.Some? && req.newTutor.value.Some? && !req.tutorActive then Some(TutorNotEligible)
        else None
  }

  function Replacement(current: Schedule, req: PermanentChange): Schedule
    requires ValidRequest(req)
  {
    Schedule(
      current.class_, current.enrollment,
      if req.newTutor.Some? then req.newTutor.value else current.tutor,
      if req.newCapacity.Some? then req.newCapacity.value else current.capacity,
      if req.newLocation.Some? then req.newLocation else current.location,
      req.dayOfWeek, req.start.value, req.end.value,
      req.effective, current.validUntil, Some(EndOfMonth(req.effective.value)), false)
  }

  function ChangePermanent(db: Db, id: Id, newId: Id, req: PermanentChange, today: Day,
                           occupied: nat): Result<Db, Error> {
    var error := CheckPermanent(db, id, req, today, occupied);
    if error.Some? then Err(error.value)
    else if newId in db.schedules then Err(DuplicateKey)
    else
      var current, effective := db.schedules[id], req.effective.value;
      var replacement := Replacement(current, req);
      var shortened := SetRow(db, id,
                              RowState(current.(validUntil := Some(effective - 1)),
                                       Cancel(db.sessions[id], effective)));
      Ok(AddRow(shortened, newId, RowState(replacement, InitialSessions(replacement, effective)),
                LineageOf(db, id), db.nextTag).(nextTag := db.nextTag + 1))
  }

  // The three outcomes of a permanent tutor change.
  datatype TutorChange = KeepRow | AssignInPlace | SplitRow

  function TutorChangeKind(row: Schedule, tutor: Id): TutorChange {
    if row.enrollment.Some? && row.tutor == Some(tutor) then KeepRow
    else if row.enrollment.Some? && row.tutor.None? then AssignInPlace
    else SplitRow
  }

  function SetTutor(known: map<Day, Session>, from: Day, tutor: Id): map<Day, Session> {
    map d | d in known :: if from <= d && LiveScheduled(known[d]) then known[d].(tutor := tutor) else known[d]
  }

  function CheckTutor(db: Db, id: Id, tutorActive: bool, effective: Day): Option<Error> {
    if !Found(db, id) then Some(ScheduleNotFound)
    else if !tutorActive then Some(TutorNotEligible)
    else if !CoversReplacement(db.schedules[id], effective) then Some(InvalidEffectiveDate)
    else None
  }

  function ChangeTutor(db: Db, id: Id, newId: Id, tutor: Id, tutorActive: bool, effective: Day): Result<Db, Error> {
    var error := CheckTutor(db, id, tutorActive, effective);
    if error.Some? then Err(error.value)
    else
      var current, known := db.schedules[id], db.sessions[id];
      match TutorChangeKind(current, tutor)
      case KeepRow => Ok(db)
      case AssignInPlace => Ok(SetRow(db, id,
                                      RowState(current.(tutor := Some(tutor)), SetTutor(known, effective, tutor))))
      case SplitRow =>
        if newId in db.schedules then Err(DuplicateKey)
        else
          var shortened := SetRow(db, id,
                                  RowState(current.(validUntil := Some(effective - 1)), Staying(known, effective)));
          Ok(AddRow(shortened, newId,
                    RowState(current.(tutor := Some(tutor), validFrom := Some(effective)),
                             Moved(known, effective, tutor)),
                    LineageOf(db, id), FamilyOf(db, id)))
  }

  // ---- One-off changes and deletion ----

  predicate SessionFound(db: Db, id: Id, date: Day) {
    Known(db, id) && date in db.sessions[id] && !db.sessions[id][date].deleted
  }

  function SetSession(db: Db, id: Id, date: Day, s: Session): Db
    requires id in db.sessions
  {
    db.(sessions := db.sessions[id := db.sessions[id][date := s]])
  }

  function Reschedule(db: Db, id: Id, date: Day, newDate: Day, start: TimeOfDay, end: TimeOfDay): Result<Db, Error> {
    if !SessionFound(db, id, date) then Err(SessionNotFound)
    else
      var s := db.sessions[id][date];
      var replacement := Session(s.enrollment, s.tutor, start, end, Scheduled, false, false);
      Ok(SetSession(db, id, date,
                    s.(status := Rescheduled)).(oneOffs := db.oneOffs + [OneOff(id, date, newDate, replacement)]))
  }

  function Substitute(db: Db, id: Id, date: Day, tutor: Id, tutorActive: bool): Result<Db, Error> {
    if !SessionFound(db, id, date) then Err(SessionNotFound)
    else if !tutorActive then Err(TutorNotEligible)
    else Ok(SetSession(db, id, date, db.sessions[id][date].(tutor := tutor)))
  }

  function DeleteSession(db: Db, id: Id, date: Day): Result<Db, Error> {
    if !SessionFound(db, id, date) then Err(SessionNotFound)
    else Ok(SetSession(db, id, date, db.sessions[id][date].(deleted := true)))
  }

  function DeleteSchedule(db: Db, id: Id, today: Day, occupied: nat): Result<Db, Error> {
    if !Found(db, id) then Err(ScheduleNotFound)
    else
      var row := db.schedules[id];
      var guard := CheckChange(db.sessions[id], today, today, occupied, row.capacity, true);
      if guard.Some? then Err(guard.value)
      else Ok(SetRow(db, id, RowState(row.(deleted := true), Cancel(db.sessions[id], today))))
  }

  // Whether the class of a row, or of the row a replacement came from, is this one.
  predicate OfClass(db: Db, id: Id, class_: Id) {
    id in db.schedules && db.schedules[id].class_ == class_
  }

  function CancelReplacement(db: Db, one: OneOff, class_: Id, from: Day): OneOff {
    if OfClass(db, one.originSchedule, class_) && from <= one.date && LiveScheduled(one.session)
      then one.(session := one.session.(status := Cancelled))
      else one
  }

  // All rows of the class are deleted and its future sessions, replacements included, are
  // cancelled. Only active enrollments stand in the way.
  function DeleteClass(db: Db, class_: Id, active: nat, today: Day): Result<Db, Error> {
    if class_ in db.deletedClasses then Err(ClassNotFound)
    else if active > 0 then Err(ClassActiveEnrollments)
    else
      Ok(db.(schedules := map id | id in db.schedules ::
                            if OfClass(db, id, class_) then db.schedules[id].(deleted := true) else db.schedules[id],
             sessions := map id | id in db.sessions ::
                           if OfClass(db, id, class_) then Cancel(db.sessions[id], today) else db.sessions[id],
             oneOffs := seq(|db.oneOffs|, i requires 0 <= i < |db.oneOffs| =>
                          CancelReplacement(db, db.oneOffs[i], class_, today)),
             deletedClasses := db.deletedClasses + {class_}))
  }

  // Both edits of a session read its row without a lock and write the whole row back by
  // primary key. CanSave says that the row read as (id, date) is now the row of `at`: only
  // a tutor change moves a session, within the family.
  predicate CanSave(db: Db, id: Id, at: Id, date: Day) {
    && Known(db, id) && Known(db, at) && id in db.family && at in db.family && db.family[id] == db.family[at]
    && date in db.sessions[at]
  }

  // Every column is written, the schedule row and the deletion mark included; attendance is
  // kept in another table.
  function SaveSession(db: Db, id: Id, at: Id, date: Day, copy: Session): Db {
    if !CanSave(db, id, at, date) then db
    else
      var written := copy.(attended := db.sessions[at][date].attended);
      var taken := db.sessions[at := db.sessions[at] - {date}];
      db.(sessions := taken[id := taken[id][date := written]])
  }

  // A reschedule and a substitution whose save commits after others changed the row.
  function StaleReschedule(db: Db, id: Id, at: Id, date: Day, earlier: Session, newDate: Day, start: TimeOfDay,
                           end: TimeOfDay): Db {
    if !CanSave(db, id, at, date) then db
    else
      var replacement := Session(earlier.enrollment, earlier.tutor, start, end, Scheduled, false, false);
      SaveSession(db, id, at, date, earlier.(status := Rescheduled))
        .(oneOffs := db.oneOffs + [OneOff(id, date, newDate, replacement)])
  }

  function StaleSubstitute(db: Db, id: Id, at: Id, date: Day, earlier: Session, tutor: Id): Db {
    SaveSession(db, id, at, date, earlier.(tutor := tutor))
  }

  // Attendance taken for a session.
  function Attend(db: Db, id: Id, date: Day): Result<Db, Error> {
    if !SessionFound(db, id, date) then Err(SessionNotFound)
    else Ok(SetSession(db, id, date, db.sessions[id][date].(attended := true)))
  }

  // ---- Runs ----

  datatype Op =
    | OpCreate(id: Id, item: NewSchedule, now: Day)
    | OpWorker(id: Id, window: Window)
    | OpPermanent(id: Id, newId: Id, req: PermanentChange, today: Day, occupied: nat)
    | OpTutor(id: Id, newId: Id, tutor: Id, tutorActive: bool, effective: Day)
    | OpReschedule(id: Id, date: Day, newDate: Day, start: TimeOfDay, end: TimeOfDay)
    | OpSubstitute(id: Id, date: Day, tutor: Id, tutorActive: bool)
    | OpStaleReschedule(id: Id, at: Id, date: Day, earlier: Session, newDate: Day, start: TimeOfDay, end: TimeOfDay)
    | OpStaleSubstitute(id: Id, at: Id, date: Day, earlier: Session, tutor: Id)
    | OpDeleteSession(id: Id, date: Day)
    | OpDeleteSchedule(id: Id, today: Day, occupied: nat)
    | OpDeleteClass(class_: Id, active: nat, today: Day)
    | OpAttend(id: Id, date: Day)
    | OpEnvironment(deletedClasses: set<Id>, liveEnrollments: set<Id>)

  // A failed transaction changes nothing.
  function Committed(db: Db, r: Result<Db, Error>): Db {
    if r.Ok? then r.value else db
  }

  function Apply(db: Db, op: Op): Db {
    match op
    case OpCreate(id, item, now) => Committed(db, CreateSchedule(db, id, item, now))
    case OpWorker(id, window) => WorkerStep(db, id, window)
    case OpPermanent(id, newId, req, today, occupied) =>
      Committed(db, ChangePermanent(db, id, newId, req, today, occupied))
    case OpTutor(id, newId, tutor, active, effective) =>
      Committed(db, ChangeTutor(db, id, newId, tutor, active, effective))
    case OpReschedule(id, date, newDate, start, end) => Committed(db, Reschedule(db, id, date, newDate, start, end))
    case OpSubstitute(id, date, tutor, active) => Committed(db, Substitute(db, id, date, tutor, active))
    case OpStaleReschedule(id, at, date, earlier, newDate, start, end) =>
      StaleReschedule(db, id, at, date, earlier, newDate, start, end)
    case OpStaleSubstitute(id, at, date, earlier, tutor) => StaleSubstitute(db, id, at, date, earlier, tutor)
    case OpDeleteSession(id, date) => Committed(db, DeleteSession(db, id, date))
    case OpDeleteSchedule(id, today, occupied) => Committed(db, DeleteSchedule(db, id, today, occupied))
    case OpDeleteClass(class_, active, today) => Committed(db, DeleteClass(db, class_, active, today))
    case OpAttend(id, date) => Committed(db, Attend(db, id, date))
    case OpEnvironment(deleted, live) => db.(deletedClasses := deleted, liveEnrollments := live)
  }

  function Run(db: Db, ops: seq<Op>): Db
    decreases ops
  {
    if ops == [] then db else Run(Apply(db, ops[0]), ops[1..])
  }

  const EMPTY := Db(map[], map[], [], {}, {}, {}, map[], map[], map[], 0)
}
