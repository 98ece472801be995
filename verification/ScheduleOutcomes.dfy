// What the caller of each schedule transaction gets, told from the request and the stored
// rows alone: when it succeeds, which error comes first, and everything that it changes.
module ScheduleOutcomes {
  import opened Common
  import opened Calendar
  import opened Generation
  import opened ScheduleVersions

  // ---- What a transaction leaves alone ----

  predicate RowKept(db: Db, after: Db, r: Id) {
    (r in after.schedules <==> r in db.schedules) && (r in after.sessions <==> r in db.sessions)
    && (r in db.schedules && r in after.schedules ==> after.schedules[r] == db.schedules[r])
    && (r in db.sessions && r in after.sessions ==> after.sessions[r] == db.sessions[r])
  }

  predicate WorldKept(db: Db, after: Db) {
    after.privateClasses == db.privateClasses && after.deletedClasses == db.deletedClasses
    && after.liveEnrollments == db.liveEnrollments
  }

  ghost predicate OnlyRows(db: Db, after: Db, ids: set<Id>) {
    (forall r :: r !in ids ==> RowKept(db, after, r)) && WorldKept(db, after) && after.oneOffs == db.oneOffs
  }

  // One session of one row is written; all else is kept.
  ghost predicate OnlySession(db: Db, after: Db, id: Id, date: Day, s: Session) {
    && (forall r :: r != id ==> RowKept(db, after, r)) && WorldKept(db, after) && after.schedules == db.schedules
    && id in after.sessions && id in db.sessions && date in after.sessions[id] && after.sessions[id][date] == s
    && after.sessions[id].Keys == db.sessions[id].Keys
    && (forall d :: d in db.sessions[id] && d != date ==> after.sessions[id][d] == db.sessions[id][d])
  }

  predicate Undeleted(db: Db, id: Id) {
    id in db.schedules && id in db.sessions && !db.schedules[id].deleted
  }

  predicate SessionThere(db: Db, id: Id, date: Day) {
    id in db.schedules && id in db.sessions && date in db.sessions[id] && !db.sessions[id][date].deleted
  }

  predicate Between(from: Option<Day>, d: Day, until: Option<Day>) {
    (from.Some? ==> from.value <= d) && (until.Some? ==> d <= until.value)
  }

  // A lesson as a row gives it.
  predicate LessonOf(s: Session, enrollment: Option<Id>, tutor: Option<Id>, start: TimeOfDay, end: TimeOfDay) {
    && s.enrollment == enrollment && s.tutor == (if tutor.Some? then tutor.value else Nil)
    && s.startTime == start && s.endTime == end && s.status == Scheduled && !s.deleted && !s.attended
  }

  // ---- Creation ----

  // A schedule is created exactly when its request passes every check, and the first check
  // that fails is the answer.
  lemma CreationExactly(db: Db, id: Id, item: NewSchedule, now: Day)
    ensures
      var r := CreateSchedule(db, id, item, now);
      var private_ := item.class_ in db.privateClasses;
      var from := if item.validFrom.Some? then item.validFrom.value else now;
      var seat := private_ ==> item.capacity == 1;
      var sizes := 1 <= item.dayOfWeek && item.dayOfWeek <= 7 && 1 <= item.capacity && item.capacity <= 2147483647;
      var tutored := item.tutor.Some? ==> item.tutorActive;
      var timed := item.start.Some? && item.end.Some? && item.start.value < item.end.value;
      var ends := item.validUntil.Some? ==> from <= item.validUntil.value;
      var owned := private_ ==> item.enrollment.Some?;
      var matches := private_ ==> item.enrollmentMatches;
      && (!seat ==> r == Err(PrivateScheduleCapacity))
      && (seat && !sizes ==> r == Err(InvalidScheduleChange))
      && (seat && sizes && !tutored ==> r == Err(TutorNotEligible))
      && (seat && sizes && tutored && !timed ==> r == Err(StartNotBeforeEnd))
      && (seat && sizes && tutored && timed && !ends ==> r == Err(ValidFromAfterUntil))
      && (seat && sizes && tutored && timed && ends && !owned ==> r == Err(EnrollmentRequired))
      && (seat && sizes && tutored && timed && ends && owned && !matches ==> r == Err(InvalidEnrollment))
      && (seat && sizes && tutored && timed && ends && owned && matches && id in db.schedules ==>
            r == Err(DuplicateKey))
      && (r.Ok? <==> seat && sizes && tutored && timed && ends && owned && matches && id !in db.schedules)
  {
    hide InitialSessions, EndOfMonth;
  }

  // The new row is the requested one, with a lesson on each of its days of the first month.
  lemma CreatedAsRequested(db: Db, id: Id, item: NewSchedule, now: Day)
    requires CreateSchedule(db, id, item, now).Ok?
    ensures
      var after := CreateSchedule(db, id, item, now).value;
      var from := if item.validFrom.Some? then item.validFrom.value else now;
      var owner := if item.class_ in db.privateClasses then item.enrollment else None;
      && OnlyRows(db, after, {id}) && id in after.schedules && id in after.sessions
      && item.start.Some? && item.end.Some?
      && after.schedules[id] == Schedule(item.class_, owner, item.tutor, item.capacity, item.location, item.dayOfWeek,
                                         item.start.value, item.end.value, Some(from), item.validUntil,
                                         Some(EndOfMonth(from)), false)
      && (forall d :: d in after.sessions[id] <==>
            from <= d <= EndOfMonth(from) && IsoWeekday(d) == item.dayOfWeek && Between(None, d, item.validUntil))
      && (forall d :: d in after.sessions[id] ==>
            LessonOf(after.sessions[id][d], owner, item.tutor, item.start.value, item.end.value))
  {
    hide EndOfMonth, IsoWeekday, CheckNew;
    CreationExactly(db, id, item, now);
  }

  // ---- The worker's step ----

  // A step generates exactly a row that is not deleted, whose class is not deleted and whose
  // owner is live, that is not generated through the horizon and has not ended before.
  predicate AwaitsLessons(db: Db, id: Id, horizon: Day) {
    && id in db.schedules && id in db.sessions && !db.schedules[id].deleted
    && db.schedules[id].class_ !in db.deletedClasses
    && (db.schedules[id].enrollment.Some? ==> db.schedules[id].enrollment.value in db.liveEnrollments)
    && (db.schedules[id].generatedUntil.Some? ==> db.schedules[id].generatedUntil.value < horizon)
    && (db.schedules[id].generatedUntil.Some? && db.schedules[id].validUntil.Some? ==>
          db.schedules[id].generatedUntil.value < db.schedules[id].validUntil.value)
  }

  lemma DueExactly(db: Db, id: Id, horizon: Day)
    ensures DueRow(db, id, horizon) <==> AwaitsLessons(db, id, horizon)
  {
  }

  lemma WorkerStepExactly(db: Db, id: Id, w: Window)
    ensures !AwaitsLessons(db, id, w.horizon) ==> WorkerStep(db, id, w) == db
    ensures AwaitsLessons(db, id, w.horizon) ==>
              var after, row := WorkerStep(db, id, w), db.schedules[id];
              && OnlyRows(db, after, {id}) && id in after.schedules && id in after.sessions
              && after.schedules[id] == row.(generatedUntil := Some(w.horizon))
              && (forall d :: d in after.sessions[id] <==>
                    d in db.sessions[id] ||
                    (w.monthStart <= d <= w.horizon && Between(row.validFrom, d, row.validUntil)
                     && IsoWeekday(d) == row.dayOfWeek
                     && (row.generatedUntil.Some? ==> row.generatedUntil.value < d)))
              && (forall d :: d in db.sessions[id] ==> after.sessions[id][d] == db.sessions[id][d])
              && (forall d :: d in after.sessions[id] && d !in db.sessions[id] ==>
                    LessonOf(after.sessions[id][d], row.enrollment, row.tutor, row.startTime, row.endTime))
  {
    hide IsoWeekday;
    DueExactly(db, id, w.horizon);
  }

  // ---- Permanent changes ----

  predicate PastOrAttended(s: Session) {
    !s.deleted && (s.status == Completed || s.attended)
  }

  // A permanent change succeeds exactly when every check passes; the first failing one answers.
  lemma PermanentExactly(db: Db, id: Id, newId: Id, req: PermanentChange, today: Day, occupied: nat)
    ensures
      var r := ChangePermanent(db, id, newId, req, today, occupied);
      var valid := && req.start.Some? && req.end.Some? && req.start.value < req.end.value
                   && 1 <= req.dayOfWeek && req.dayOfWeek <= 7 && req.effective.Some?
                   && (req.newCapacity.Some? ==> 1 <= req.newCapacity.value && req.newCapacity.value <= 2147483647)
                   && (req.newLocation.Some? ==> |req.newLocation.value| <= 255);
      && (!valid ==> r == Err(InvalidScheduleChange))
      && (valid && !Undeleted(db, id) ==> r == Err(ScheduleNotFound))
      && (valid && Undeleted(db, id) ==>
            var row, e := db.schedules[id], req.effective.value;
            var capacity := if req.newCapacity.Some? then req.newCapacity.value else row.capacity;
            var inside := Between(row.validFrom, e, row.validUntil);
            var seat := row.class_ in db.privateClasses ==> capacity == 1;
            var open := today <= e
                        && forall d :: d in db.sessions[id] && e <= d ==> !PastOrAttended(db.sessions[id][d]);
            var room := occupied <= capacity;
            var tutored := req.newTutor.Some? && req.newTutor.value.Some? ==> req.tutorActive;
            && (!inside ==> r == Err(InvalidEffectiveDate))
            && (inside && !seat ==> r == Err(PrivateScheduleCapacity))
            && (inside && seat && !open ==> r == Err(HistoryConflict))
            && (inside && seat && open && !room ==> r == Err(SeatsConflict))
            && (inside && seat && open && room && !tutored ==> r == Err(TutorNotEligible))
            && (inside && seat && open && room && tutored && newId in db.schedules ==> r == Err(DuplicateKey))
            && (r.Ok? <==> inside && seat && open && room && tutored && newId !in db.schedules))
  {
    hide InitialSessions, Cancel, EndOfMonth;
  }

  // Sessions from a day on that were still scheduled are cancelled; all others are as before.
  ghost predicate CancelledFrom(known: map<Day, Session>, after: map<Day, Session>, from: Day) {
    after.Keys == known.Keys
    && forall d :: d in known ==>
         after[d] == if from <= d && known[d].status == Scheduled && !known[d].deleted
                     then known[d].(status := Cancelled) else known[d]
  }

  // The old row ends the day before with nothing scheduled after; the new one has what was
  // requested and, where nothing was, what the old one had.
  lemma ChangedAsRequested(db: Db, id: Id, newId: Id, req: PermanentChange, today: Day, occupied: nat)
    requires ChangePermanent(db, id, newId, req, today, occupied).Ok?
    ensures
      var after := ChangePermanent(db, id, newId, req, today, occupied).value;
      && id in db.schedules && id in db.sessions && req.effective.Some? && req.start.Some? && req.end.Some?
      && OnlyRows(db, after, {id, newId}) && newId !in db.schedules && newId != id
      && id in after.schedules && id in after.sessions && newId in after.schedules && newId in after.sessions
      && var row, e := db.schedules[id], req.effective.value;
      && after.schedules[id] == row.(validUntil := Some(e - 1))
      && CancelledFrom(db.sessions[id], after.sessions[id], e)
      && var tutor := if req.newTutor.Some? then req.newTutor.value else row.tutor;
      && after.schedules[newId] ==
           Schedule(row.class_, row.enrollment, tutor,
                    if req.newCapacity.Some? then req.newCapacity.value else row.capacity,
                    if req.newLocation.Some? then req.newLocation else row.location,
                    req.dayOfWeek, req.start.value, req.end.value, Some(e), row.validUntil, Some(EndOfMonth(e)), false)
      && (forall d :: d in after.sessions[newId] <==>
            e <= d <= EndOfMonth(e) && IsoWeekday(d) == req.dayOfWeek && Between(None, d, row.validUntil))
      && (forall d :: d in after.sessions[newId] ==>
            LessonOf(after.sessions[newId][d], row.enrollment, tutor, req.start.value, req.end.value))
  {
    hide EndOfMonth, IsoWeekday, CheckChange;
    PermanentExactly(db, id, newId, req, today, occupied);
  }

  // ---- Permanent tutor changes ----

  // A tutor change succeeds exactly for a row that is there, an active tutor, a day inside the
  // row and, unless the row is kept, a new id; and it is one of three.
  lemma TutorChangeExactly(db: Db, id: Id, newId: Id, tutor: Id, tutorActive: bool, effective: Day)
    ensures
      var r := ChangeTutor(db, id, newId, tutor, tutorActive, effective);
      && (!Undeleted(db, id) ==> r == Err(ScheduleNotFound))
      && (Undeleted(db, id) && !tutorActive ==> r == Err(TutorNotEligible))
      && (Undeleted(db, id) && tutorActive ==>
            var row := db.schedules[id];
            var inside := Between(row.validFrom, effective, row.validUntil);
            var same := row.enrollment.Some? && row.tutor == Some(tutor);
            var first := row.enrollment.Some? && row.tutor.None?;
            && (!inside ==> r == Err(InvalidEffectiveDate))
            && (inside && same ==> r == Ok(db))
            && (inside && first ==> r.Ok? && AssignedInPlace(db, r.value, id, tutor, effective))
            && (inside && !same && !first && newId in db.schedules ==> r == Err(DuplicateKey))
            && (inside && !same && !first && newId !in db.schedules ==>
                  r.Ok? && HandedOver(db, r.value, id, newId, tutor, effective)))
  {
    hide AssignedInPlace, HandedOver, Moved, Staying, SetTutor, AddRow, SetRow;
    if Undeleted(db, id) && tutorActive && Between(db.schedules[id].validFrom, effective, db.schedules[id].validUntil) {
      if db.schedules[id].enrollment.Some? && db.schedules[id].tutor.None? {
        AssignsInPlace(db, id, newId, tutor, effective);
      } else if !(db.schedules[id].enrollment.Some? && db.schedules[id].tutor == Some(tutor))
                && newId !in db.schedules {
        HandsOver(db, id, newId, tutor, effective);
      }
    }
  }

  lemma AssignsInPlace(db: Db, id: Id, newId: Id, tutor: Id, effective: Day)
    requires Undeleted(db, id) && Between(db.schedules[id].validFrom, effective, db.schedules[id].validUntil)
    requires db.schedules[id].enrollment.Some? && db.schedules[id].tutor.None?
    ensures var r := ChangeTutor(db, id, newId, tutor, true, effective);
            r.Ok? && AssignedInPlace(db, r.value, id, tutor, effective)
  {
  }

  lemma HandsOver(db: Db, id: Id, newId: Id, tutor: Id, effective: Day)
    requires Undeleted(db, id) && Between(db.schedules[id].validFrom, effective, db.schedules[id].validUntil)
    requires !(db.schedules[id].enrollment.Some? && db.schedules[id].tutor == Some(tutor)) && newId !in db.schedules
    requires !(db.schedules[id].enrollment.Some? && db.schedules[id].tutor.None?)
    ensures var r := ChangeTutor(db, id, newId, tutor, true, effective);
            r.Ok? && HandedOver(db, r.value, id, newId, tutor, effective)
  {
  }

  predicate StillScheduled(known: map<Day, Session>, from: Day, d: Day) {
    d in known && from <= d && known[d].status == Scheduled && !known[d].deleted
  }

  // The first tutor of a private row: the row and its scheduled sessions from the day on.
  ghost predicate AssignedInPlace(db: Db, after: Db, id: Id, tutor: Id, from: Day)
    requires Undeleted(db, id)
  {
    && OnlyRows(db, after, {id}) && id in after.schedules && id in after.sessions
    && after.schedules[id] == db.schedules[id].(tutor := Some(tutor))
    && after.sessions[id].Keys == db.sessions[id].Keys
    && forall d :: d in db.sessions[id] ==>
         after.sessions[id][d] == if StillScheduled(db.sessions[id], from, d)
                                  then db.sessions[id][d].(tutor := tutor) else db.sessions[id][d]
  }

  // Any other one: a new row takes over from the day on, with the sessions still scheduled.
  ghost predicate HandedOver(db: Db, after: Db, id: Id, newId: Id, tutor: Id, from: Day)
    requires Undeleted(db, id)
  {
    && OnlyRows(db, after, {id, newId}) && id in after.schedules && id in after.sessions
    && newId in after.schedules && newId in after.sessions
    && after.schedules[id] == db.schedules[id].(validUntil := Some(from - 1))
    && after.schedules[newId] == db.schedules[id].(tutor := Some(tutor), validFrom := Some(from))
    && (forall d :: d in after.sessions[id] <==> d in db.sessions[id] && !StillScheduled(db.sessions[id], from, d))
    && (forall d :: d in after.sessions[id] ==> after.sessions[id][d] == db.sessions[id][d])
    && (forall d :: d in after.sessions[newId] <==> StillScheduled(db.sessions[id], from, d))
    && (forall d :: d in after.sessions[newId] ==> after.sessions[newId][d] == db.sessions[id][d].(tutor := tutor))
  }

  // ---- Single sessions ----

  // A rescheduled session is marked, and one replacement keeps its enrollment and tutor.
  lemma RescheduleExactly(db: Db, id: Id, date: Day, newDate: Day, start: TimeOfDay, end: TimeOfDay)
    ensures var r := Reschedule(db, id, date, newDate, start, end);
            && (!SessionThere(db, id, date) ==> r == Err(SessionNotFound))
            && (SessionThere(db, id, date) ==>
                  var s := db.sessions[id][date];
                  && r.Ok? && OnlySession(db, r.value, id, date, s.(status := Rescheduled))
                  && |r.value.oneOffs| == |db.oneOffs| + 1 && r.value.oneOffs[..|db.oneOffs|] == db.oneOffs
                  && var one := r.value.oneOffs[|db.oneOffs|];
                  && one.originSchedule == id && one.originDate == date && one.date == newDate
                  && one.session == Session(s.enrollment, s.tutor, start, end, Scheduled, false, false))
  {
  }

  lemma SubstituteExactly(db: Db, id: Id, date: Day, tutor: Id, tutorActive: bool)
    ensures var r := Substitute(db, id, date, tutor, tutorActive);
            && (!SessionThere(db, id, date) ==> r == Err(SessionNotFound))
            && (SessionThere(db, id, date) && !tutorActive ==> r == Err(TutorNotEligible))
            && (SessionThere(db, id, date) && tutorActive ==>
                  && r.Ok? && OnlySession(db, r.value, id, date, db.sessions[id][date].(tutor := tutor))
                  && r.value.oneOffs == db.oneOffs)
  {
  }

  lemma SessionDeletedExactly(db: Db, id: Id, date: Day)
    ensures var r := DeleteSession(db, id, date);
            && (!SessionThere(db, id, date) ==> r == Err(SessionNotFound))
            && (SessionThere(db, id, date) ==>
                  && r.Ok? && OnlySession(db, r.value, id, date, db.sessions[id][date].(deleted := true))
                  && r.value.oneOffs == db.oneOffs)
  {
  }

  lemma AttendedExactly(db: Db, id: Id, date: Day)
    ensures var r := Attend(db, id, date);
            && (!SessionThere(db, id, date) ==> r == Err(SessionNotFound))
            && (SessionThere(db, id, date) ==>
                  && r.Ok? && OnlySession(db, r.value, id, date, db.sessions[id][date].(attended := true))
                  && r.value.oneOffs == db.oneOffs)
  {
  }

  // The save of a session read as (id, date) finds its row as (at, date) and writes back every
  // column, the row it was read on included; only attendance is not part of it.
  lemma StaleSaveExactly(db: Db, op: Op)
    requires op.OpStaleReschedule? || op.OpStaleSubstitute?
    ensures
      var after := Apply(db, op);
      var there := && op.id in db.schedules && op.id in db.sessions && op.at in db.schedules && op.at in db.sessions
                   && op.id in db.family && op.at in db.family && db.family[op.id] == db.family[op.at]
                   && op.date in db.sessions[op.at];
      && (!there ==> after == db)
      && (there ==>
            var attended := db.sessions[op.at][op.date].attended;
            && after.schedules == db.schedules && WorldKept(db, after)
            && (forall r :: r != op.id && r != op.at ==> RowKept(db, after, r))
            && op.id in after.sessions && op.at in after.sessions && op.date in after.sessions[op.id]
            && after.sessions[op.id][op.date] ==
                 (if op.OpStaleReschedule? then op.earlier.(status := Rescheduled, attended := attended)
                  else op.earlier.(tutor := op.tutor, attended := attended))
            && (op.at != op.id ==> op.date !in after.sessions[op.at])
            && (forall d :: d != op.date ==>
                  && (d in after.sessions[op.id] <==> d in db.sessions[op.id])
                  && (d in after.sessions[op.at] <==> d in db.sessions[op.at])
                  && (d in db.sessions[op.id] ==> after.sessions[op.id][d] == db.sessions[op.id][d])
                  && (d in db.sessions[op.at] ==> after.sessions[op.at][d] == db.sessions[op.at][d]))
            && after.oneOffs ==
                 db.oneOffs + (if op.OpStaleSubstitute? then [] else
                   [OneOff(op.id, op.date, op.newDate, Session(op.earlier.enrollment, op.earlier.tutor, op.start,
                                                               op.end, Scheduled, false, false))]))
  {
  }

  // ---- Deletions ----

  lemma ScheduleDeletedExactly(db: Db, id: Id, today: Day, occupied: nat)
    ensures
      var r := DeleteSchedule(db, id, today, occupied);
      && (!Undeleted(db, id) ==> r == Err(ScheduleNotFound))
      && (Undeleted(db, id) ==>
            var open := forall d :: d in db.sessions[id] && today <= d ==> !PastOrAttended(db.sessions[id][d]);
            var room := occupied == 0 && occupied <= db.schedules[id].capacity;
            && (!open ==> r == Err(HistoryConflict))
            && (open && !room ==> r == Err(SeatsConflict))
            && (open && room ==>
                  && r.Ok? && OnlyRows(db, r.value, {id}) && id in r.value.schedules && id in r.value.sessions
                  && r.value.schedules[id] == db.schedules[id].(deleted := true)
                  && CancelledFrom(db.sessions[id], r.value.sessions[id], today)))
  {
  }

  // A class goes with all its rows, and its future sessions and replacements are cancelled.
  lemma ClassDeletedExactly(db: Db, class_: Id, active: nat, today: Day)
    ensures
      var r := DeleteClass(db, class_, active, today);
      && (class_ in db.deletedClasses ==> r == Err(ClassNotFound))
      && (class_ !in db.deletedClasses && active > 0 ==> r == Err(ClassActiveEnrollments))
      && (class_ !in db.deletedClasses && active == 0 ==>
            && r.Ok? && r.value.deletedClasses == db.deletedClasses + {class_}
            && r.value.privateClasses == db.privateClasses && r.value.liveEnrollments == db.liveEnrollments
            && r.value.schedules.Keys == db.schedules.Keys && r.value.sessions.Keys == db.sessions.Keys
            && (forall id :: id in db.schedules && db.schedules[id].class_ == class_ ==>
                  && r.value.schedules[id] == db.schedules[id].(deleted := true)
                  && (id in db.sessions ==> CancelledFrom(db.sessions[id], r.value.sessions[id], today)))
            && (forall id :: !(id in db.schedules && db.schedules[id].class_ == class_) ==> RowKept(db, r.value, id))
            && |r.value.oneOffs| == |db.oneOffs|
            && (forall i :: 0 <= i < |db.oneOffs| ==>
                  var one := db.oneOffs[i];
                  r.value.oneOffs[i] ==
                    if one.originSchedule in db.schedules && db.schedules[one.originSchedule].class_ == class_
                       && today <= one.date && one.session.status == Scheduled && !one.session.deleted
                    then one.(session := one.session.(status := Cancelled)) else one))
  {
  }
}
