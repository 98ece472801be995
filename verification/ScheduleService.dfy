// The schedule use cases as they run: each method checks, in order, and then updates
// the tables row by row, inside one transaction.
module ScheduleService {
  import opened Common
  import opened Calendar
  import opened Generation
  import opened ScheduleVersions

  // Items are created in turn; the first failure rolls all of them back.
  function CreateAll(db: Db, items: seq<(Id, NewSchedule)>, now: Day): Result<Db, Error>
    decreases |items|
  {
    if items == [] then Ok(db)
    else
      match CreateSchedule(db, items[0].0, items[0].1, now)
      case Err(e) => Err(e)
      case Ok(next) => CreateAll(next, items[1..], now)
  }

  // SELECT count(*) over the locked session rows that are history.
  method CountHistory(known: map<Day, Session>, from: Day) returns (history: nat)
    ensures history > 0 <==> HasHistory(known, from)
  {
    var rows := set d | d in known && from <= d && !known[d].deleted &&
        (known[d].status == Completed || known[d].attended);
    if HasHistory(known, from) {
      ghost var d :| d in known && from <= d && !known[d].deleted &&
          (known[d].status == Completed || known[d].attended);
      assert d in rows;
    }
    history := |rows|;
  }

  method ValidateChange(known: map<Day, Session>, today: Day, effective: Day, occupied: nat, capacity: int,
                        deleting: bool)
    returns (error: Option<Error>)
    ensures error == CheckChange(known, today, effective, occupied, capacity, deleting)
  {
    if effective < today {
      return Some(HistoryConflict);
    }
    var history := CountHistory(known, effective);
    if history > 0 {
      return Some(HistoryConflict);
    }
    if occupied > capacity || (deleting && occupied > 0) {
      return Some(SeatsConflict);
    }
    return None;
  }

  // The sessions of a freshly created row.
  method GenerateInitial(row: Schedule, from: Day) returns (known: map<Day, Session>)
    ensures known == InitialSessions(row, from)
  {
    hide IsoWeekday, EndOfMonth, InWindow, Dates, NewSession, StrictlyIncreasing;
    var sessions := SessionsBetween(row, from, EndOfMonth(from));
    var inserted;
    known, inserted := InsertMissing(map[], sessions);
    AfterIsFill(row, map[], from, EndOfMonth(from), sessions, known);
  }

  class ScheduleUsecase {
    var schedules: map<Id, Schedule>
    var sessions: map<Id, map<Day, Session>>
    var oneOffs: seq<OneOff>
    var privateClasses: set<Id>
    var deletedClasses: set<Id>
    var liveEnrollments: set<Id>
    ghost var lineage: map<Id, nat>
    ghost var family: map<Id, nat>
    ghost var original: map<nat, Schedule>
    ghost var nextTag: nat

    ghost function State(): Db
      reads this
    {
      Db(schedules, sessions, oneOffs, privateClasses, deletedClasses, liveEnrollments, lineage, family, original,
         nextTag)
    }

    // INSERT of a row and of its sessions.
    method InsertRow(id: Id, row: Schedule, known: map<Day, Session>, ghost lineageTag: nat, ghost familyTag: nat)
      modifies this
      ensures State() == AddRow(old(State()), id, RowState(row, known), lineageTag, familyTag)
    {
      schedules := schedules[id := row];
      sessions := sessions[id := known];
      lineage := lineage[id := lineageTag];
      family := family[id := familyTag];
    }

    // UPDATE class_sessions SET status = 'cancelled' for the row's scheduled sessions.
    method CancelFutureSessions(id: Id, from: Day)
      requires id in sessions
      modifies this`sessions
      ensures sessions == old(sessions)[id := Cancel(old(sessions)[id], from)]
    {
      var known := sessions[id];
      var cancelled := map d | d in known && from <= d && LiveScheduled(known[d]) :: known[d].(status := Cancelled);
      sessions := sessions[id := known + cancelled];
      assert known + cancelled == Cancel(known, from);
    }

    // UPDATE class_sessions SET tutor_id, schedule_id for the row's scheduled sessions.
    method UpdateFutureSessionsTutor(id: Id, tutor: Id, newId: Id, from: Day)
      requires id in sessions && newId in sessions
      requires newId != id ==> sessions[newId] == map[]
      modifies this`sessions
      ensures newId == id ==> sessions == old(sessions)[id := SetTutor(old(sessions)[id], from, tutor)]
      ensures newId != id ==>
        sessions == old(sessions)[id := Staying(old(sessions)[id], from)][newId := Moved(old(sessions)[id], from,
            tutor)]
    {
      var known := sessions[id];
      var taken := map d | d in known && from <= d && LiveScheduled(known[d]) :: known[d].(tutor := tutor);
      sessions := sessions[id := known - taken.Keys];
      sessions := sessions[newId := sessions[newId] + taken];
      assert newId == id ==> sessions[id] == SetTutor(known, from, tutor);
      assert newId != id ==> sessions[id] == Staying(known, from) && sessions[newId] == Moved(known, from, tutor);
    }

    // The class is looked up, and its tenant compared, before any item is read.
    method CreateInitialSchedules(classFound: bool, classOwned: bool, items: seq<(Id, NewSchedule)>, now: Day)
      returns (error: Option<Error>)
      modifies this
      ensures !classFound ==> error == Some(ClassNotFound)
      ensures classFound && !classOwned ==> error == Some(ClassForbidden)
      ensures classFound && classOwned && error.None? ==> CreateAll(old(State()), items, now) == Ok(State())
      ensures classFound && classOwned && error.Some? ==> CreateAll(old(State()), items, now) == Err(error.value)
      ensures error.Some? ==> State() == old(State())
    {
      if !classFound { return Some(ClassNotFound); }
      if !classOwned { return Some(ClassForbidden); }
      hide IsoWeekday, EndOfMonth, InitialSessions, Fill;
      var savedSchedules, savedSessions := schedules, sessions;
      ghost var savedLineage, savedFamily, savedOriginal, savedTag := lineage, family, original, nextTag;
      for n := 0 to |items|
        invariant CreateAll(old(State()), items, now) == CreateAll(State(), items[n..], now)
        invariant State() == old(State()).(schedules := schedules, sessions := sessions, lineage := lineage,
                                           family := family, original := original, nextTag := nextTag)
      {
        var id, item := items[n].0, items[n].1;
        assert items[n..][0] == items[n] && items[n..][1..] == items[n + 1..];
        error := CreateOne(id, item, now);
        if error.Some? {
          schedules, sessions := savedSchedules, savedSessions;
          lineage, family, original, nextTag := savedLineage, savedFamily, savedOriginal, savedTag;
          return;
        }
      }
      error := None;
    }

    method CreateOne(id: Id, item: NewSchedule, now: Day) returns (error: Option<Error>)
      modifies this
      ensures error.None? ==> CreateSchedule(old(State()), id, item, now) == Ok(State())
      ensures error.Some? ==> CreateSchedule(old(State()), id, item, now) == Err(error.value) && State() == old(State())
      ensures oneOffs == old(oneOffs) && privateClasses == old(privateClasses)
      ensures deletedClasses == old(deletedClasses) && liveEnrollments == old(liveEnrollments)
    {
      hide IsoWeekday, EndOfMonth, InitialSessions;
      var isPrivate := item.class_ in privateClasses;
      if isPrivate && item.capacity != 1 { return Some(PrivateScheduleCapacity); }
      if item.dayOfWeek < 1 || item.dayOfWeek > 7 || item.capacity < 1 || item.capacity > MAX_CAPACITY {
        return Some(InvalidScheduleChange);
      }
      if item.tutor.Some? && !item.tutorActive { return Some(TutorNotEligible); }
      if item.start.None? || item.end.None? || item.start.value >= item.end.value { return Some(StartNotBeforeEnd); }
      var validFrom := now;
      if item.validFrom.Some? { validFrom := item.validFrom.value; }
      if item.validUntil.Some? && validFrom > item.validUntil.value { return Some(ValidFromAfterUntil); }
      var enrollment: Option<Id> := None;
      if isPrivate {
        if item.enrollment.None? { return Some(EnrollmentRequired); }
        if !item.enrollmentMatches { return Some(InvalidEnrollment); }
        enrollment := item.enrollment;
      }
      if id in schedules { return Some(DuplicateKey); }
      var row := Schedule(item.class_, enrollment, item.tutor, item.capacity, item.location, item.dayOfWeek,
                          item.start.value, item.end.value, Some(validFrom), item.validUntil,
                          Some(EndOfMonth(validFrom)), false);
      var known := GenerateInitial(row, validFrom);
      InsertRow(id, row, known, nextTag, nextTag);
      original := original[nextTag := row];
      nextTag := nextTag + 1;
      error := None;
    }

    // The writes of a permanent change: the old row ends, the new one starts.
    method StartReplacement(id: Id, newId: Id, replacement: Schedule, effective: Day)
      requires id in schedules && id in sessions
      modifies this
      ensures
        var before := old(State());
        var ended := SetRow(before, id, RowState(before.schedules[id].(validUntil := Some(effective - 1)),
                                                 Cancel(before.sessions[id], effective)));
        State() == AddRow(ended, newId, RowState(replacement, InitialSessions(replacement, effective)),
                          LineageOf(before, id), before.nextTag).(nextTag := before.nextTag + 1)
    {
      hide IsoWeekday, EndOfMonth, InitialSessions, Cancel;
      schedules := schedules[id := schedules[id].(validUntil := Some(effective - 1))];
      CancelFutureSessions(id, effective);
      var known := GenerateInitial(replacement, effective);
      InsertRow(newId, replacement, known, LineageOf(old(State()), id), nextTag);
      nextTag := nextTag + 1;
    }

    method ChangeSchedulePermanent(id: Id, newId: Id, req: PermanentChange, today: Day,
                                   occupied: nat) returns (error: Option<Error>)
      modifies this
      ensures error.None? ==> ChangePermanent(old(State()), id, newId, req, today, occupied) == Ok(State())
      ensures error.Some? ==>
          ChangePermanent(old(State()), id, newId, req, today, occupied) == Err(error.value) && State() == old(State())
    {
      hide IsoWeekday, EndOfMonth, InitialSessions, Cancel, CheckChange, InWindow;
      if !ValidRequest(req) { return Some(InvalidScheduleChange); }
      var effective := req.effective.value;
      if id !in schedules || id !in sessions || schedules[id].deleted { return Some(ScheduleNotFound); }
      var row := schedules[id];
      if !CoversReplacement(row, effective) { return Some(InvalidEffectiveDate); }
      var capacity := row.capacity;
      if req.newCapacity.Some? { capacity := req.newCapacity.value; }
      if row.class_ in privateClasses && capacity != 1 { return Some(PrivateScheduleCapacity); }
      var guard := ValidateChange(sessions[id], today, effective, occupied, capacity, false);
      if guard.Some? { return guard; }
      var tutor := row.tutor;
      if req.newTutor.Some? {
        if req.newTutor.value.Some? && !req.tutorActive { return Some(TutorNotEligible); }
        tutor := req.newTutor.value;
      }
      var location := row.location;
      if req.newLocation.Some? { location := req.newLocation; }
      if newId in schedules { return Some(DuplicateKey); }

      var replacement := Schedule(row.class_, row.enrollment, tutor, capacity, location, req.dayOfWeek,
                                  req.start.value, req.end.value,
                                  Some(effective), row.validUntil, Some(EndOfMonth(effective)), false);
      StartReplacement(id, newId, replacement, effective);
      error := None;
    }

    method ChangeTutorPermanent(id: Id, newId: Id, tutor: Id, tutorActive: bool,
                                effective: Day) returns (error: Option<Error>)
      modifies this
      ensures error.None? ==> ChangeTutor(old(State()), id, newId, tutor, tutorActive, effective) == Ok(State())
      ensures error.Some? ==> ChangeTutor(old(State()), id, newId, tutor, tutorActive,
                                          effective) == Err(error.value) && State() == old(State())
    {
      hide InWindow, Moved, Staying, SetTutor;
      if id !in schedules || id !in sessions || schedules[id].deleted { return Some(ScheduleNotFound); }
      if !tutorActive { return Some(TutorNotEligible); }
      var row := schedules[id];
      if !CoversReplacement(row, effective) { return Some(InvalidEffectiveDate); }
      if row.enrollment.Some? && row.tutor == Some(tutor) { return None; }
      if row.enrollment.Some? && row.tutor.None? {
        schedules := schedules[id := row.(tutor := Some(tutor))];
        UpdateFutureSessionsTutor(id, tutor, id, effective);
        return None;
      }
      if newId in schedules { return Some(DuplicateKey); }
      schedules := schedules[id := row.(validUntil := Some(effective - 1))];
      InsertRow(newId, row.(tutor := Some(tutor), validFrom := Some(effective)), map[], LineageOf(old(State()), id),
                FamilyOf(old(State()), id));
      UpdateFutureSessionsTutor(id, tutor, newId, effective);
      assert sessions == old(sessions)[id := Staying(old(sessions)[id], effective)][newId := Moved(old(sessions)[id],
          effective, tutor)];
      error := None;
    }

    // The edit of a session that nothing else changes between its read and its save.
    method RescheduleSession(id: Id, date: Day, newDate: Day, start: TimeOfDay,
                             end: TimeOfDay) returns (error: Option<Error>)
      modifies this`sessions, this`oneOffs
      ensures error.None? ==> Reschedule(old(State()), id, date, newDate, start, end) == Ok(State())
      ensures error.Some? ==>
          Reschedule(old(State()), id, date, newDate, start, end) == Err(error.value) && State() == old(State())
    {
      if id !in schedules || id !in sessions || date !in sessions[id] || sessions[id][date].deleted {
        return Some(SessionNotFound);
      }
      var target := sessions[id][date].(status := Rescheduled);
      sessions := sessions[id := sessions[id][date := target]];
      oneOffs := oneOffs + [OneOff(id, date, newDate,
                                   Session(target.enrollment, target.tutor, start, end, Scheduled, false, false))];
      error := None;
    }

    method DeleteScheduleById(id: Id, owned: bool, today: Day, occupied: nat) returns (error: Option<Error>)
      modifies this`schedules, this`sessions
      ensures !owned && Found(old(State()), id) ==> error == Some(ScheduleForbidden)
      ensures error.None? ==> DeleteSchedule(old(State()), id, today, occupied) == Ok(State())
      ensures error.Some? && (owned || !Found(old(State()), id)) ==>
          DeleteSchedule(old(State()), id, today, occupied) == Err(error.value)
      ensures error.Some? ==> State() == old(State())
    {
      hide Cancel, CheckChange;
      if id !in schedules || id !in sessions || schedules[id].deleted { return Some(ScheduleNotFound); }
      if !owned { return Some(ScheduleForbidden); }
      var guard := ValidateChange(sessions[id], today, today, occupied, schedules[id].capacity, true);
      if guard.Some? { return guard; }
      schedules := schedules[id := schedules[id].(deleted := true)];
      CancelFutureSessions(id, today);
      error := None;
    }

    method CancelReplacements(rows: set<Id>, class_: Id, from: Day, ghost before: Db)
      requires forall id :: id in rows <==> OfClass(before, id, class_)
      modifies this`oneOffs
      ensures |oneOffs| == |old(oneOffs)|
      ensures forall i :: 0 <= i < |oneOffs| ==> oneOffs[i] == CancelReplacement(before, old(oneOffs)[i], class_, from)
    {
      hide LiveScheduled, OfClass;
      var known := oneOffs;
      oneOffs := seq(|known|, i requires 0 <= i < |known| =>
                   if known[i].originSchedule in rows && from <= known[i].date && LiveScheduled(known[i].session)
                     then known[i].(session := known[i].session.(status := Cancelled))
                     else known[i]);
    }

    // The deletion of a class, given its owner and the number of its active enrollments.
    method DeleteClassById(class_: Id, owned: bool, active: nat, today: Day) returns (error: Option<Error>)
      modifies this`schedules, this`sessions, this`oneOffs, this`deletedClasses
      ensures !owned && class_ !in old(deletedClasses) ==> error == Some(ClassForbidden)
      ensures error.None? ==> DeleteClass(old(State()), class_, active, today) == Ok(State())
      ensures error.Some? && (owned || class_ in old(deletedClasses)) ==>
          DeleteClass(old(State()), class_, active, today) == Err(error.value)
      ensures error.Some? ==> State() == old(State())
    {
      if class_ in deletedClasses { return Some(ClassNotFound); }
      if !owned { return Some(ClassForbidden); }
      if active > 0 { return Some(ClassActiveEnrollments); }
      ghost var before := State();
      ghost var after := DeleteClass(before, class_, active, today).value;
      hide LiveScheduled, Cancel;
      var rows := set id | id in schedules && schedules[id].class_ == class_;
      assert forall id :: id in rows <==> OfClass(before, id, class_);
      schedules := map id | id in schedules :: if id in rows then schedules[id].(deleted := true) else schedules[id];
      assert schedules == after.schedules;
      sessions := map id | id in sessions :: if id in rows then Cancel(sessions[id], today) else sessions[id];
      assert sessions == after.sessions;
      CancelReplacements(rows, class_, today, before);
      assert oneOffs == after.oneOffs;
      deletedClasses := deletedClasses + {class_};
      error := None;
    }
  }
}
