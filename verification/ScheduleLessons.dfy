// The lessons that creations, permanent changes and the worker make, told from the request;
// and the rows on which nothing is generated any more.
module ScheduleLessons {
  import opened Common
  import opened Calendar
  import opened Generation
  import opened ScheduleVersions
  import opened ScheduleInvariants
  import opened ScheduleTheorems
  import opened ScheduleSessions
  import opened GenerationLaws
  import opened ScheduleOutcomes
  import Service = ScheduleService

  // ---- Lessons as requested ----

  // The worker can see the row: its class is there and its owner, if any, is live.
  predicate Kept(db: Db, class_: Id, enrollment: Option<Id>) {
    class_ !in db.deletedClasses && (enrollment.Some? ==> enrollment.value in db.liveEnrollments)
  }

  // All lessons of the row are as it gives them, and it keeps all but its watermark.
  ghost predicate GivesLessons(db: Db, id: Id, row: Schedule) {
    && id in db.schedules && id in db.sessions
    && db.schedules[id] == row.(generatedUntil := db.schedules[id].generatedUntil)
    && forall d :: d in db.sessions[id] ==>
         LessonOf(db.sessions[id][d], row.enrollment, row.tutor, row.startTime, row.endTime)
  }

  lemma {:induction false} StepsGiveLessons(db: Db, id: Id, row: Schedule, windows: seq<Window>)
    requires GivesLessons(db, id, row)
    ensures GivesLessons(Steps(db, id, windows), id, row)
    decreases windows
  {
    hide LessonOf, IsoWeekday, Visible, Due;
    if windows != [] {
      WorkerStepExactly(db, id, windows[0]);
      StepsGiveLessons(WorkerStep(db, id, windows[0]), id, row, windows[1..]);
    }
  }

  // After a permanent change and any passes that are on time, the new row has a lesson on
  // exactly the requested weekdays from the effective date through the last horizon, as far as
  // the old row went, each with what was requested and otherwise with what the old row had.
  lemma ChangedLessonsAsRequested(db: Db, id: Id, newId: Id, req: PermanentChange, today: Day, occupied: nat,
                                  clock: seq<Day>, horizonMonths: nat, d: Day)
    requires ChangePermanent(db, id, newId, req, today, occupied).Ok? && req.effective.Some?
    requires OnTime(MonthOf(req.effective.value), clock, horizonMonths)
    requires id in db.schedules && Kept(db, db.schedules[id].class_, db.schedules[id].enrollment)
    ensures
      var changed := ChangePermanent(db, id, newId, req, today, occupied).value;
      var after := Steps(changed, newId, WindowsOf(clock, horizonMonths));
      var row, e := db.schedules[id], req.effective.value;
      var last := CoveredUntil(MonthEnd(MonthOf(e)), WindowsOf(clock, horizonMonths));
      && newId in after.sessions && req.start.Some? && req.end.Some?
      && (d in after.sessions[newId] <==>
            e <= d <= last && IsoWeekday(d) == req.dayOfWeek && (row.validUntil.Some? ==> d <= row.validUntil.value))
      && (d in after.sessions[newId] ==>
            LessonOf(after.sessions[newId][d], row.enrollment,
                     if req.newTutor.Some? then req.newTutor.value else row.tutor, req.start.value, req.end.value))
  {
    hide MonthOf, MonthEnd, IsoWeekday, OnTime, EndOfMonth, ChangePermanent, WindowsOf, CoveredUntil, Steps, LessonOf,
         Dates;
    ChangedAsRequested(db, id, newId, req, today, occupied);
    ChangedThenPassed(db, id, newId, req, today, occupied, clock, horizonMonths);
    var changed := ChangePermanent(db, id, newId, req, today, occupied).value;
    StepsGiveLessons(changed, newId, changed.schedules[newId], WindowsOf(clock, horizonMonths));
    DatesExact(changed.schedules[newId], req.effective.value,
               CoveredUntil(MonthEnd(MonthOf(req.effective.value)), WindowsOf(clock, horizonMonths)));
  }

  // The same for a created schedule, from its first day on.
  lemma CreatedLessonsAsRequested(db: Db, id: Id, item: NewSchedule, now: Day, clock: seq<Day>, horizonMonths: nat,
                                  d: Day)
    requires CreateSchedule(db, id, item, now).Ok?
    requires OnTime(MonthOf(if item.validFrom.Some? then item.validFrom.value else now), clock, horizonMonths)
    requires Kept(db, item.class_, if item.class_ in db.privateClasses then item.enrollment else None)
    ensures
      var created := CreateSchedule(db, id, item, now).value;
      var after := Steps(created, id, WindowsOf(clock, horizonMonths));
      var from := if item.validFrom.Some? then item.validFrom.value else now;
      var last := CoveredUntil(MonthEnd(MonthOf(from)), WindowsOf(clock, horizonMonths));
      && id in after.sessions && item.start.Some? && item.end.Some?
      && (d in after.sessions[id] <==>
            from <= d <= last && IsoWeekday(d) == item.dayOfWeek
            && (item.validUntil.Some? ==> d <= item.validUntil.value))
      && (d in after.sessions[id] ==>
            LessonOf(after.sessions[id][d], if item.class_ in db.privateClasses then item.enrollment else None,
                     item.tutor, item.start.value, item.end.value))
  {
    hide MonthOf, MonthEnd, IsoWeekday, OnTime, EndOfMonth, CreateSchedule, WindowsOf, CoveredUntil, Steps, LessonOf,
         Dates;
    var from := if item.validFrom.Some? then item.validFrom.value else now;
    CreatedAsRequested(db, id, item, now);
    CreatedThenPassed(db, id, item, now, clock, horizonMonths);
    var created := CreateSchedule(db, id, item, now).value;
    StepsGiveLessons(created, id, created.schedules[id], WindowsOf(clock, horizonMonths));
    DatesExact(created.schedules[id], from, CoveredUntil(MonthEnd(MonthOf(from)), WindowsOf(clock, horizonMonths)));
  }

  // ---- Several schedules at once ----

  ghost predicate HasRow(db: Db, id: Id, item: NewSchedule, private_: bool, now: Day) {
    && id in db.schedules && item.start.Some? && item.end.Some?
    && var from := if item.validFrom.Some? then item.validFrom.value else now;
    db.schedules[id] == Schedule(item.class_, if private_ then item.enrollment else None, item.tutor, item.capacity,
                                 item.location, item.dayOfWeek, item.start.value, item.end.value, Some(from),
                                 item.validUntil, Some(EndOfMonth(from)), false)
  }

  predicate Named(items: seq<(Id, NewSchedule)>, id: Id) {
    exists k :: 0 <= k < |items| && items[k].0 == id
  }

  // All items are created, each as requested, or the first that cannot be answers.
  lemma {:induction false} BatchExactly(db: Db, items: seq<(Id, NewSchedule)>, now: Day)
    ensures
      var r := Service.CreateAll(db, items, now);
      && (r.Ok? ==>
            && r.value.privateClasses == db.privateClasses
            && (forall k :: 0 <= k < |items| ==>
                  HasRow(r.value, items[k].0, items[k].1, items[k].1.class_ in db.privateClasses, now))
            && (forall q :: q in db.schedules ==> q in r.value.schedules && r.value.schedules[q] == db.schedules[q])
            && (forall q :: q in r.value.schedules ==> q in db.schedules || Named(items, q)))
      && (r.Err? ==>
            exists k :: 0 <= k < |items| && FailsAt(db, items, now, k, r.error))
    decreases |items|
  {
    hide CreateSchedule, EndOfMonth, LessonOf;
    if items != [] {
      var (id, item) := items[0];
      var first := CreateSchedule(db, id, item, now);
      CreationExactly(db, id, item, now);
      if first.Err? {
        assert items[..0] == [];
        assert FailsAt(db, items, now, 0, first.error);
      } else {
        CreatedAsRequested(db, id, item, now);
        assert HasRow(first.value, id, item, item.class_ in db.privateClasses, now);
        BatchExactly(first.value, items[1..], now);
        var r := Service.CreateAll(first.value, items[1..], now);
        if r.Err? {
          var k :| 0 <= k < |items[1..]| && FailsAt(first.value, items[1..], now, k, r.error);
          assert items[..k + 1][0] == items[0] && items[..k + 1][1..] == items[1..][..k];
          assert FailsAt(db, items, now, k + 1, r.error);
        } else {
          forall q | q in db.schedules
            ensures q in r.value.schedules && r.value.schedules[q] == db.schedules[q]
          {
            assert RowKept(db, first.value, q);
          }
          forall q | q in r.value.schedules ensures q in db.schedules || Named(items, q) {
            if q !in first.value.schedules {
              assert Named(items[1..], q);
              var k :| 0 <= k < |items[1..]| && items[1..][k].0 == q;
              assert items[k + 1].0 == q;
            } else if q != id {
              assert RowKept(db, first.value, q);
            } else {
              assert items[0].0 == q;
            }
          }
          forall k | 0 <= k < |items|
            ensures HasRow(r.value, items[k].0, items[k].1, items[k].1.class_ in db.privateClasses, now)
          {
            if k > 0 { assert items[k] == items[1..][k - 1]; }
          }
        }
      }
    }
  }

  predicate FailsAt(db: Db, items: seq<(Id, NewSchedule)>, now: Day, k: nat, error: Error)
    requires k < |items|
  {
    var before := Service.CreateAll(db, items[..k], now);
    before.Ok? && CreateSchedule(before.value, items[k].0, items[k].1, now) == Err(error)
  }

  // ---- Rows that are over ----

  // The row is deleted, its class is, or its owner is no longer live.
  predicate Over(db: Db, id: Id) {
    id in db.schedules && id in db.sessions
    && (db.schedules[id].deleted || db.schedules[id].class_ in db.deletedClasses
        || (db.schedules[id].enrollment.Some? && db.schedules[id].enrollment.value !in db.liveEnrollments))
  }

  // The save of a session that was read on the row on this date.
  predicate ReturnsTo(op: Op, id: Id, d: Day) {
    Saves(op) && op.id == id && op.date == d
  }

  predicate Returned(ops: seq<Op>, id: Id, d: Day) {
    exists k :: 0 <= k < |ops| && ReturnsTo(ops[k], id, d)
  }

  // No transaction adds a session to the row but the save of one that was read on it.
  lemma NothingAdded(db: Db, op: Op, id: Id, d: Day)
    requires Inv(db) && Over(db, id)
    ensures id in Apply(db, op).sessions
    ensures d in Apply(db, op).sessions[id] ==> d in db.sessions[id] || ReturnsTo(op, id, d)
  {
    assert id in db.schedules && id in db.sessions;
    hide Inv, Apply, Over, Saves, IsoWeekday;
    InvTables(db);
    ApplyExtends(db, op);
    hide Tables, Extends;
    if op.OpWorker? {
      OverIsSkipped(db, op, id);
    } else if Saves(op) {
      SavesOnlyIts(db, op, id, d);
    } else {
      OthersShrink(db, op, id);
    }
  }

  lemma OverIsSkipped(db: Db, op: Op, id: Id)
    requires op.OpWorker? && Over(db, id)
    ensures id in Apply(db, op).sessions && Apply(db, op).sessions[id] == db.sessions[id]
  {
    WorkerStepExactly(db, op.id, op.window);
  }

  lemma SavesOnlyIts(db: Db, op: Op, id: Id, d: Day)
    requires Saves(op) && Over(db, id)
    ensures id in Apply(db, op).sessions
    ensures d in Apply(db, op).sessions[id] ==> d in db.sessions[id] || (op.id == id && op.date == d)
  {
    hide Apply;
    StaleSaveExactly(db, op);
    var after := Apply(db, op);
    if after != db && id != op.id && id != op.at {
      assert RowKept(db, after, id);
    }
  }

  // What any other transaction makes of a row that is there already: at most its validity end,
  // its tutor, its deletion mark and the state of its sessions change.
  ghost predicate Shrunk(db: Db, after: Db, id: Id)
    requires id in db.schedules && id in db.sessions
  {
    && id in after.schedules && id in after.sessions && after.sessions[id].Keys <= db.sessions[id].Keys
    && after.schedules[id].class_ == db.schedules[id].class_
    && after.schedules[id].enrollment == db.schedules[id].enrollment
    && (db.schedules[id].deleted ==> after.schedules[id].deleted)
  }

  lemma OthersShrink(db: Db, op: Op, id: Id)
    requires id in db.schedules && id in db.sessions && !op.OpWorker? && !Saves(op)
    ensures Shrunk(db, Apply(db, op), id)
  {
    hide CreateSchedule, ChangePermanent, ChangeTutor, Reschedule, Substitute, DeleteSession, Attend, DeleteSchedule,
         DeleteClass;
    match op
    case OpCreate(q, item, now) => CreateShrinks(db, q, item, now, id);
    case OpPermanent(q, newId, req, today, occupied) => PermanentShrinks(db, q, newId, req, today, occupied, id);
    case OpTutor(q, newId, tutor, active, effective) => TutorShrinks(db, q, newId, tutor, active, effective, id);
    case OpDeleteSchedule(q, today, occupied) =>
      ScheduleDeletedExactly(db, q, today, occupied);
      assert DeleteSchedule(db, q, today, occupied).Ok? && id != q ==> RowKept(db, Apply(db, op), id);
    case OpDeleteClass(class_, active, today) =>
      ClassDeletedExactly(db, class_, active, today);
      assert DeleteClass(db, class_, active, today).Ok? && db.schedules[id].class_ != class_ ==>
          RowKept(db, Apply(db, op), id);
    case OpEnvironment(_, _) =>
    case _ => EditShrinks(db, op, id);
  }

  lemma CreateShrinks(db: Db, q: Id, item: NewSchedule, now: Day, id: Id)
    requires id in db.schedules && id in db.sessions
    ensures Shrunk(db, Committed(db, CreateSchedule(db, q, item, now)), id)
  {
    hide CreateSchedule, LessonOf, IsoWeekday, EndOfMonth;
    CreationExactly(db, q, item, now);
    if CreateSchedule(db, q, item, now).Ok? {
      CreatedAsRequested(db, q, item, now);
      assert RowKept(db, CreateSchedule(db, q, item, now).value, id);
    }
  }

  lemma PermanentShrinks(db: Db, q: Id, newId: Id, req: PermanentChange, today: Day, occupied: nat, id: Id)
    requires id in db.schedules && id in db.sessions
    ensures Shrunk(db, Committed(db, ChangePermanent(db, q, newId, req, today, occupied)), id)
  {
    hide ChangePermanent, LessonOf, IsoWeekday, EndOfMonth;
    if ChangePermanent(db, q, newId, req, today, occupied).Ok? {
      ChangedAsRequested(db, q, newId, req, today, occupied);
      assert id != q ==> RowKept(db, ChangePermanent(db, q, newId, req, today, occupied).value, id);
    }
  }

  lemma TutorShrinks(db: Db, q: Id, newId: Id, tutor: Id, active: bool, effective: Day, id: Id)
    requires id in db.schedules && id in db.sessions
    ensures Shrunk(db, Committed(db, ChangeTutor(db, q, newId, tutor, active, effective)), id)
  {
    hide ChangeTutor, StillScheduled, IsoWeekday, Between;
    TutorChangeExactly(db, q, newId, tutor, active, effective);
    var r := ChangeTutor(db, q, newId, tutor, active, effective);
    if r.Ok? && r.value != db {
      assert AssignedInPlace(db, r.value, q, tutor, effective)
             || (newId !in db.schedules && HandedOver(db, r.value, q, newId, tutor, effective));
      assert id != q ==> RowKept(db, r.value, id);
      forall d | d in r.value.sessions[id] ensures d in db.sessions[id] {
      }
    }
  }

  lemma EditShrinks(db: Db, op: Op, id: Id)
    requires id in db.schedules && id in db.sessions && Edits(op)
    ensures Shrunk(db, Apply(db, op), id)
  {
    hide Reschedule, Substitute, DeleteSession, Attend;
    if op.OpReschedule? {
      RescheduleExactly(db, op.id, op.date, op.newDate, op.start, op.end);
    } else if op.OpSubstitute? {
      SubstituteExactly(db, op.id, op.date, op.tutor, op.tutorActive);
    } else if op.OpDeleteSession? {
      SessionDeletedExactly(db, op.id, op.date);
    } else {
      AttendedExactly(db, op.id, op.date);
    }
    assert Apply(db, op) != db && id != op.id ==> RowKept(db, Apply(db, op), id);
  }

  ghost predicate OverAlong(db: Db, ops: seq<Op>, id: Id)
    decreases ops
  {
    Over(db, id) && (ops == [] || OverAlong(Apply(db, ops[0]), ops[1..], id))
  }

  // As long as it is over, a row gets no session in any run, the worker's steps with any clock
  // included, but the ones whose saves were under way.
  lemma {:induction false} NothingGenerated(db: Db, ops: seq<Op>, id: Id, d: Day)
    requires Inv(db) && OverAlong(db, ops, id)
    ensures id in db.sessions && id in Run(db, ops).sessions
    ensures d in Run(db, ops).sessions[id] ==> d in db.sessions[id] || Returned(ops, id, d)
    decreases ops
  {
    hide Inv, Apply, Saves, ReturnsTo;
    if ops != [] {
      ApplyKeepsInv(db, ops[0]);
      NothingAdded(db, ops[0], id, d);
      NothingGenerated(Apply(db, ops[0]), ops[1..], id, d);
      if Returned(ops[1..], id, d) {
        var k :| 0 <= k < |ops[1..]| && ReturnsTo(ops[1..][k], id, d);
        assert ops[k + 1] == ops[1..][k];
      }
      if ReturnsTo(ops[0], id, d) { assert Returned(ops, id, d); }
    }
  }

  // A row keeps its class and owner for good, and a deleted one stays deleted.
  lemma RowKeepsOwner(db: Db, op: Op, id: Id)
    requires Inv(db) && id in db.schedules
    ensures id in Apply(db, op).schedules && Apply(db, op).schedules[id].class_ == db.schedules[id].class_
    ensures Apply(db, op).schedules[id].enrollment == db.schedules[id].enrollment
    ensures db.schedules[id].deleted ==> Apply(db, op).schedules[id].deleted
  {
    InvTables(db);
    hide Inv, Apply;
    if op.OpWorker? {
      WorkerKeepsOwner(db, op, id);
    } else if Saves(op) {
      StaleSaveExactly(db, op);
    } else {
      OthersShrink(db, op, id);
    }
  }

  lemma WorkerKeepsOwner(db: Db, op: Op, id: Id)
    requires op.OpWorker? && id in db.schedules
    ensures id in Apply(db, op).schedules && Apply(db, op).schedules[id].class_ == db.schedules[id].class_
    ensures Apply(db, op).schedules[id].enrollment == db.schedules[id].enrollment
    ensures Apply(db, op).schedules[id].deleted == db.schedules[id].deleted
  {
    hide IsoWeekday, LessonOf;
    WorkerStepExactly(db, op.id, op.window);
    assert Apply(db, op) != db && id != op.id ==> RowKept(db, Apply(db, op), id);
  }

  // Once deleted, a row is over for good, whatever happens later.
  lemma {:induction false} DeletedForGood(db: Db, ops: seq<Op>, id: Id)
    requires Inv(db) && id in db.schedules && db.schedules[id].deleted
    ensures OverAlong(db, ops, id)
    decreases ops
  {
    hide Inv, Apply;
    InvTables(db);
    if ops != [] {
      RowKeepsOwner(db, ops[0], id);
      ApplyKeepsInv(db, ops[0]);
      DeletedForGood(Apply(db, ops[0]), ops[1..], id);
    }
  }

  // Once its class is deleted, a row is over as long as the class is not brought back.
  lemma {:induction false} ClassDeletedForGood(db: Db, ops: seq<Op>, id: Id)
    requires Inv(db) && id in db.schedules && db.schedules[id].class_ in db.deletedClasses
    requires forall k :: 0 <= k < |ops| && ops[k].OpEnvironment? ==>
               db.schedules[id].class_ in ops[k].deletedClasses
    ensures OverAlong(db, ops, id)
    decreases ops
  {
    hide Inv, Apply;
    InvTables(db);
    if ops != [] {
      RowKeepsOwner(db, ops[0], id);
      ApplyKeepsInv(db, ops[0]);
      ClassesStayDeleted(db, ops[0], db.schedules[id].class_);
      assert forall k :: 0 <= k < |ops[1..]| ==> ops[1..][k] == ops[k + 1];
      ClassDeletedForGood(Apply(db, ops[0]), ops[1..], id);
    }
  }

  lemma ClassesStayDeleted(db: Db, op: Op, class_: Id)
    requires class_ in db.deletedClasses && (op.OpEnvironment? ==> class_ in op.deletedClasses)
    ensures class_ in Apply(db, op).deletedClasses
  {
    hide IsoWeekday, EndOfMonth, InitialSessions, CheckNew, CheckPermanent, CheckTutor, CheckChange, Replacement,
         LiveScheduled, Cancel, CancelReplacement, Generate, Moved, Staying, SetTutor, Visible, Due, TutorChangeKind;
  }

  // Once its owner is no longer live, a private row is over until the owner is live again.
  lemma {:induction false} OwnerGone(db: Db, ops: seq<Op>, id: Id)
    requires Inv(db) && id in db.schedules && db.schedules[id].enrollment.Some?
    requires db.schedules[id].enrollment.value !in db.liveEnrollments
    requires forall k :: 0 <= k < |ops| && ops[k].OpEnvironment? ==>
               db.schedules[id].enrollment.value !in ops[k].liveEnrollments
    ensures OverAlong(db, ops, id)
    decreases ops
  {
    hide Inv, Apply;
    InvTables(db);
    if ops != [] {
      RowKeepsOwner(db, ops[0], id);
      ApplyKeepsInv(db, ops[0]);
      OwnersStay(db, ops[0]);
      assert forall k :: 0 <= k < |ops[1..]| ==> ops[1..][k] == ops[k + 1];
      OwnerGone(Apply(db, ops[0]), ops[1..], id);
    }
  }

  lemma OwnersStay(db: Db, op: Op)
    ensures Apply(db, op).liveEnrollments == if op.OpEnvironment? then op.liveEnrollments else db.liveEnrollments
  {
    hide IsoWeekday, EndOfMonth, InitialSessions, CheckNew, CheckPermanent, CheckTutor, CheckChange, Replacement,
         LiveScheduled, Cancel, CancelReplacement, Generate, Moved, Staying, SetTutor, Visible, Due, TutorChangeKind;
  }
}
