// Scheduled and removed sessions over whole runs. Both edits of a session save the row as
// it was read; the results say exactly which saves they allow.
module ScheduleSessions {
  import opened Common
  import opened Calendar
  import opened Generation
  import opened ScheduleVersions
  import opened ScheduleInvariants
  import opened ScheduleTheorems

  ghost predicate SessionsFit(db: Db)
    requires Tables(db)
  {
    forall r, d :: r in db.sessions && d in db.sessions[r] && LiveScheduled(db.sessions[r][d]) ==>
        Fits(db.schedules[r], d)
  }

  ghost predicate HasScheduled(db: Db, r: Id, d: Day) {
    r in db.schedules && r in db.lineage && r in db.sessions && d in db.sessions[r] && LiveScheduled(db.sessions[r][d])
  }

  ghost predicate Removed(db: Db, r: Id, d: Day) {
    r in db.sessions && d in db.sessions[r] && !LiveScheduled(db.sessions[r][d])
  }

  // ---- Which saves are allowed ----

  predicate Saves(op: Op) {
    op.OpStaleReschedule? || op.OpStaleSubstitute?
  }

  // What the save writes.
  function SavedCopy(op: Op): Session
    requires Saves(op)
  {
    if op.OpStaleReschedule? then op.earlier.(status := Rescheduled) else op.earlier.(tutor := op.tutor)
  }

  // A save that leaves the session scheduled finds it scheduled, in a row that still covers
  // its date.
  predicate Admissible(db: Db, op: Op) {
    Saves(op) && CanSave(db, op.id, op.at, op.date) && LiveScheduled(SavedCopy(op)) ==>
      LiveScheduled(db.sessions[op.at][op.date]) && Fits(db.schedules[op.id], op.date)
  }

  ghost predicate SavesAdmissible(db: Db, ops: seq<Op>)
    decreases ops
  {
    ops == [] || (Admissible(db, ops[0]) && SavesAdmissible(Apply(db, ops[0]), ops[1..]))
  }

  lemma SaveIs(db: Db, op: Op)
    requires Saves(op)
    ensures Apply(db, op).schedules == db.schedules && Apply(db, op).lineage == db.lineage
    ensures Apply(db, op).family == db.family
    ensures Apply(db, op).sessions == SaveSession(db, op.id, op.at, op.date, SavedCopy(op)).sessions
  {
  }

  // ---- Scheduled sessions stay inside their own row ----

  lemma CreateKeepsFit(db: Db, op: Op)
    requires Inv(db) && SessionsFit(db) && op.OpCreate? && Tables(Apply(db, op))
    ensures SessionsFit(Apply(db, op))
  {
    hide IsoWeekday, EndOfMonth, InitialSessions, CheckNew, InWindow, Disjoint, Covering, GeneratedOnce,
         FamiliesInLineages;
    var after := Apply(db, op);
    if after != db {
      var start := if op.item.validFrom.Some? then op.item.validFrom.value else op.now;
      InitialSessionsFit(after.schedules[op.id], start);
    }
  }

  lemma WorkerKeepsFit(db: Db, op: Op)
    requires Inv(db) && SessionsFit(db) && op.OpWorker? && Tables(Apply(db, op))
    ensures SessionsFit(Apply(db, op))
  {
    hide IsoWeekday, Disjoint, Covering, GeneratedOnce, FamiliesInLineages, Visible, Due, InWindow, LiveScheduled;
    if DueRow(db, op.id, op.window.horizon) {
      GenerateIsMonotone(RowOf(db, op.id), op.window.monthStart, op.window.horizon);
      WindowOfMarked(db.schedules[op.id], op.window.horizon);
      hide Fill;
    }
  }

  lemma PermanentKeepsFit(db: Db, op: Op)
    requires Inv(db) && SessionsFit(db) && op.OpPermanent? && Tables(Apply(db, op))
    ensures SessionsFit(Apply(db, op))
  {
    hide IsoWeekday, EndOfMonth, InitialSessions, CheckPermanent, Disjoint, Covering, GeneratedOnce, FamiliesInLineages;
    var after := Apply(db, op);
    if after != db {
      ChangeFound(db, op.id, op.newId, op.req, op.today, op.occupied);
      InitialSessionsFit(after.schedules[op.newId], op.req.effective.value);
    }
  }

  lemma TutorKeepsFit(db: Db, op: Op)
    requires Inv(db) && SessionsFit(db) && op.OpTutor? && Tables(Apply(db, op))
    ensures SessionsFit(Apply(db, op))
  {
    hide IsoWeekday, Disjoint, Covering, GeneratedOnce, FamiliesInLineages;
  }

  // The windows are the same and no session became scheduled.
  lemma FewerFit(db: Db, after: Db)
    requires Tables(db) && SessionsFit(db) && Tables(after) && after.schedules.Keys == db.schedules.Keys
    requires forall r :: r in db.schedules ==> SameWindow(after.schedules[r], db.schedules[r])
    requires forall r, d :: HasScheduled(after, r, d) ==> HasScheduled(db, r, d)
    ensures SessionsFit(after)
  {
    hide IsoWeekday, LiveScheduled;
    forall r, d | r in after.sessions && d in after.sessions[r] && LiveScheduled(after.sessions[r][d])
      ensures Fits(after.schedules[r], d)
    {
      assert HasScheduled(after, r, d);
      assert HasScheduled(db, r, d);
    }
  }

  predicate Edits(op: Op) {
    op.OpReschedule? || op.OpSubstitute? || op.OpDeleteSession? || op.OpAttend?
  }

  lemma SetSessionFits(db: Db, after: Db, id: Id, date: Day, s: Session)
    requires Tables(db) && SessionsFit(db) && Tables(after) && SessionFound(db, id, date)
    requires after.schedules == db.schedules && after.sessions == db.sessions[id := db.sessions[id][date := s]]
    requires LiveScheduled(s) ==> LiveScheduled(db.sessions[id][date])
    ensures SessionsFit(after)
  {
    hide IsoWeekday, InWindow, Fits, LiveScheduled;
  }

  lemma EditKeepsFit(db: Db, op: Op)
    requires Inv(db) && SessionsFit(db) && Edits(op) && Tables(Apply(db, op))
    ensures SessionsFit(Apply(db, op))
  {
    hide Inv, SessionsFit, Tables;
    InvTables(db);
    if SessionFound(db, op.id, op.date) {
      var s := db.sessions[op.id][op.date];
      var after := Apply(db, op);
      match op
      case OpReschedule(id, date, _, _, _) => SetSessionFits(db, after, id, date, s.(status := Rescheduled));
      case OpSubstitute(id, date, tutor, active) =>
        if active { SetSessionFits(db, after, id, date, s.(tutor := tutor)); }
      case OpDeleteSession(id, date) => SetSessionFits(db, after, id, date, s.(deleted := true));
      case OpAttend(id, date) => SetSessionFits(db, after, id, date, s.(attended := true));
      case _ =>
    }
  }

  lemma DeletionKeepsFit(db: Db, op: Op)
    requires Inv(db) && SessionsFit(db) && op.OpDeleteSchedule? && Tables(Apply(db, op))
    ensures SessionsFit(Apply(db, op))
  {
    hide IsoWeekday, InWindow, Fits, CheckChange, Inv, SessionsFit;
    InvTables(db);
    FewerFit(db, Apply(db, op));
  }

  lemma ClassDeletionKeepsFit(db: Db, op: Op)
    requires Inv(db) && SessionsFit(db) && op.OpDeleteClass? && Tables(Apply(db, op))
    ensures SessionsFit(Apply(db, op))
  {
    hide IsoWeekday, InWindow, Fits, Inv, SessionsFit;
    InvTables(db);
    var after := Apply(db, op);
    forall r, d | HasScheduled(after, r, d) ensures HasScheduled(db, r, d) {
      if after != db && OfClass(db, r, op.class_) {
        assert after.sessions[r] == Cancel(db.sessions[r], op.today);
      }
    }
    FewerFit(db, after);
  }

  lemma EnvironmentKeepsFit(db: Db, op: Op)
    requires Inv(db) && SessionsFit(db) && op.OpEnvironment? && Tables(Apply(db, op))
    ensures SessionsFit(Apply(db, op))
  {
    hide IsoWeekday, InWindow, Fits, Inv, SessionsFit;
    InvTables(db);
    FewerFit(db, Apply(db, op));
  }

  lemma SaveKeepsFit(db: Db, op: Op)
    requires Inv(db) && SessionsFit(db) && Saves(op) && Admissible(db, op) && Tables(Apply(db, op))
    ensures SessionsFit(Apply(db, op))
  {
    hide IsoWeekday, InWindow, Disjoint, Covering, GeneratedOnce, FamiliesInLineages, Apply;
    SaveIs(db, op);
  }

  lemma ApplyKeepsFit(db: Db, op: Op)
    requires Inv(db) && SessionsFit(db) && Admissible(db, op)
    ensures Inv(Apply(db, op)) && SessionsFit(Apply(db, op))
  {
    hide Inv, SessionsFit, Apply, Admissible;
    ApplyKeepsInv(db, op);
    InvTables(Apply(db, op));
    match op
    case OpCreate(_, _, _) => CreateKeepsFit(db, op);
    case OpWorker(_, _) => WorkerKeepsFit(db, op);
    case OpPermanent(_, _, _, _, _) => PermanentKeepsFit(db, op);
    case OpTutor(_, _, _, _, _) => TutorKeepsFit(db, op);
    case OpStaleReschedule(_, _, _, _, _, _, _) => SaveKeepsFit(db, op);
    case OpStaleSubstitute(_, _, _, _, _) => SaveKeepsFit(db, op);
    case OpDeleteSchedule(_, _, _) => DeletionKeepsFit(db, op);
    case OpDeleteClass(_, _, _) => ClassDeletionKeepsFit(db, op);
    case OpEnvironment(_, _) => EnvironmentKeepsFit(db, op);
    case _ => EditKeepsFit(db, op);
  }

  lemma {:induction false} RunKeepsFit(db: Db, ops: seq<Op>)
    requires Inv(db) && SessionsFit(db) && SavesAdmissible(db, ops)
    ensures Inv(Run(db, ops)) && SessionsFit(Run(db, ops))
    decreases ops
  {
    hide Inv, SessionsFit, Apply, Admissible;
    if ops != [] {
      ApplyKeepsFit(db, ops[0]);
      RunKeepsFit(Apply(db, ops[0]), ops[1..]);
    }
  }

  // Over every run whose saves are admissible, a scheduled session lies in its own row's
  // window and on its weekday, and a lineage never has two scheduled sessions on one date.
  lemma OneScheduledSessionPerDate(ops: seq<Op>, r: Id, q: Id, d: Day)
    requires SavesAdmissible(EMPTY, ops) && HasScheduled(Run(EMPTY, ops), r, d)
    ensures Fits(Run(EMPTY, ops).schedules[r], d)
    ensures HasScheduled(Run(EMPTY, ops), q, d) && Run(EMPTY, ops).lineage[q] == Run(EMPTY, ops).lineage[r] ==> q == r
  {
    hide IsoWeekday, LiveScheduled, Run, SavesAdmissible;
    EmptyInv();
    RunKeepsFit(EMPTY, ops);
  }

  // ---- Nothing removed is ever revived ----

  lemma RemovedStays(db: Db, op: Op, r: Id, d: Day)
    requires Inv(db) && Removed(db, r, d) && !Saves(op)
    ensures Removed(Apply(db, op), r, d)
  {
    hide Disjoint, Covering, GeneratedOnce, FamiliesInLineages, CheckNew, CheckPermanent, CheckTutor, CheckChange,
         EndOfMonth, InitialSessions, Replacement, DueRow, TutorChangeKind, DateSet, FillFrom, Moved;
  }

  // A save may bring a removed session back to the row it was read from, still removed.
  lemma RemovedSaved(db: Db, op: Op, r: Id, d: Day) returns (holder: Id)
    requires Inv(db) && Removed(db, r, d) && Saves(op) && Admissible(db, op)
    ensures Removed(Apply(db, op), holder, d) && holder in db.family && db.family[holder] == db.family[r]
  {
    hide Disjoint, Covering, FamiliesInLineages, Apply, Fits, InWindow;
    SaveIs(db, op);
    holder := if CanSave(db, op.id, op.at, op.date) && op.at == r && op.date == d then op.id else r;
    if CanSave(db, op.id, op.at, op.date) {
      assert SameFamily(db, op.at, op.id);
      assert OnceAt(db, op.at, op.id, op.date);
    }
    hide GeneratedOnce;
  }

  lemma {:induction false} RemovedForGood(db: Db, ops: seq<Op>, r: Id, d: Day) returns (holder: Id)
    requires Inv(db) && Removed(db, r, d) && SavesAdmissible(db, ops)
    ensures Removed(Run(db, ops), holder, d)
    ensures r in Run(db, ops).family && holder in Run(db, ops).family
    ensures Run(db, ops).family[holder] == Run(db, ops).family[r]
    decreases ops
  {
    hide Inv, Apply, Removed, Admissible;
    InvRow(db, r, d);
    if ops == [] {
      holder := r;
    } else {
      var next := r;
      if Saves(ops[0]) {
        next := RemovedSaved(db, ops[0], r, d);
      } else {
        RemovedStays(db, ops[0], r, d);
      }
      ApplyKeepsInv(db, ops[0]);
      ApplyExtends(db, ops[0]);
      holder := RemovedForGood(Apply(db, ops[0]), ops[1..], next, d);
      RunExtends(Apply(db, ops[0]), ops[1..]);
    }
  }

  lemma InvRow(db: Db, r: Id, d: Day)
    requires Inv(db) && Removed(db, r, d)
    ensures r in db.family
  {
  }

  // A session that was cancelled, rescheduled or deleted stays so, and after any run whose
  // saves are admissible no row of its tutor-change family has it or another one scheduled
  // on that date.
  lemma NothingRevived(db: Db, ops: seq<Op>, r: Id, d: Day, q: Id)
    requires Inv(db) && Removed(db, r, d) && SavesAdmissible(db, ops)
    ensures r in Run(db, ops).family
    ensures q in Run(db, ops).family && Run(db, ops).family[q] == Run(db, ops).family[r] ==>
        !HasScheduled(Run(db, ops), q, d)
    ensures exists holder ::
              Removed(Run(db, ops), holder, d) && holder in Run(db, ops).family &&
                  Run(db, ops).family[holder] == Run(db, ops).family[r]
  {
    hide Run, LiveScheduled, SavesAdmissible;
    var holder := RemovedForGood(db, ops, r, d);
    RunKeepsInv(db, ops);
    var after := Run(db, ops);
    assert Tables(after);
    if q in after.family && after.family[q] == after.family[r] {
      assert SameFamily(after, holder, q);
      assert OnceAt(after, holder, q, d);
    }
    hide *;
  }

  // ---- Exactly the saves that keep both ----

  // A save keeps scheduled sessions inside their rows and removed sessions removed exactly
  // when it is admissible.
  lemma SaveSafeExactly(db: Db, op: Op)
    requires Inv(db) && SessionsFit(db) && Saves(op) && CanSave(db, op.id, op.at, op.date)
    ensures Inv(Apply(db, op))
    ensures (SessionsFit(Apply(db, op)) && (Removed(db, op.at, op.date) ==>
        Removed(Apply(db, op), op.id, op.date))) <==> Admissible(db, op)
  {
    hide IsoWeekday, InWindow, Disjoint, Covering, GeneratedOnce, FamiliesInLineages, Apply;
    ApplyKeepsInv(db, op);
    SaveIs(db, op);
    if Admissible(db, op) {
      SaveKeepsFit(db, op);
    } else {
      assert LiveScheduled(Apply(db, op).sessions[op.id][op.date]);
    }
  }

  // A save of a row that is as it was read is admissible and does what the edit alone would.
  lemma UnchangedIsAdmissible(db: Db, op: Op)
    requires Inv(db) && SessionsFit(db) && Saves(op) && op.at == op.id && SessionFound(db, op.id, op.date)
    requires op.earlier == db.sessions[op.id][op.date]
    ensures Admissible(db, op)
    ensures Apply(db, op) ==
            Apply(db, if op.OpStaleReschedule?
                      then OpReschedule(op.id, op.date, op.newDate, op.start, op.end)
                      else OpSubstitute(op.id, op.date, op.tutor, true))
  {
    hide IsoWeekday, InWindow, Disjoint, Covering, GeneratedOnce, FamiliesInLineages;
    var known := db.sessions[op.id];
    assert (known - {op.date})[op.date := SavedCopy(op)] == known[op.date := SavedCopy(op)];
  }

  lemma ChangedRow(db: Db, id: Id, newId: Id, req: PermanentChange, today: Day, occupied: nat)
    requires Inv(db) && ChangePermanent(db, id, newId, req, today, occupied).Ok?
    ensures Found(db, id) && req.effective.Some?
    ensures var changed := ChangePermanent(db, id, newId, req, today, occupied).value;
            && Known(changed, id) && id in changed.family && id in changed.lineage
            && changed.schedules[id] == db.schedules[id].(validUntil := Some(req.effective.value - 1))
            && changed.sessions[id] == Cancel(db.sessions[id], req.effective.value)
  {
    ChangeFound(db, id, newId, req, today, occupied);
    hide InitialSessions, CheckPermanent, Replacement, Cancel, InWindow, Disjoint, Covering, GeneratedOnce,
         FamiliesInLineages;
  }

  // A substitution read before a permanent change and saved after it puts the cancelled
  // session back on the ended row.
  lemma StaleSubstituteRevives(db: Db, id: Id, newId: Id, req: PermanentChange, today: Day, occupied: nat, date: Day,
                               tutor: Id)
    requires Inv(db) && HasScheduled(db, id, date) && ChangePermanent(db, id, newId, req, today, occupied).Ok?
    requires req.effective.Some? && req.effective.value <= date
    ensures var changed := ChangePermanent(db, id, newId, req, today, occupied).value;
            var saved := Apply(changed, OpStaleSubstitute(id, id, date, db.sessions[id][date], tutor));
            && Removed(changed, id, date) && HasScheduled(saved, id, date) && !Fits(saved.schedules[id], date)
  {
    hide IsoWeekday, Inv, ChangePermanent;
    ChangedRow(db, id, newId, req, today, occupied);
  }

  // ---- One-off reschedules ----

  function ScheduledDays(known: map<Day, Session>): set<Day> {
    set d | d in known && LiveScheduled(known[d])
  }

  function Replacements(oneOffs: seq<OneOff>, id: Id): set<nat> {
    set k | 0 <= k < |oneOffs| && oneOffs[k].originSchedule == id && LiveScheduled(oneOffs[k].session)
  }

  // The lessons still to be held for a row, on their own dates or on replacement dates.
  function Lessons(db: Db, id: Id): nat
    requires id in db.sessions
  {
    |ScheduledDays(db.sessions[id])| + |Replacements(db.oneOffs, id)|
  }

  // Rescheduling moves a lesson without adding or losing one exactly when the session was
  // still scheduled; a session already cancelled, completed or rescheduled gains a lesson.
  lemma RescheduleMovesTheLesson(db: Db, id: Id, date: Day, newDate: Day, start: TimeOfDay, end: TimeOfDay)
    requires Reschedule(db, id, date, newDate, start, end).Ok?
    ensures var after := Reschedule(db, id, date, newDate, start, end).value;
            && Lessons(after, id) == Lessons(db, id) + (if db.sessions[id][date].status == Scheduled then 0 else 1)
            && after.sessions[id][date].status == Rescheduled
            && |after.oneOffs| == |db.oneOffs| + 1
            && after.oneOffs[|db.oneOffs|].date == newDate && after.oneOffs[|db.oneOffs|].originDate == date
            && after.oneOffs[|db.oneOffs|].session.tutor == db.sessions[id][date].tutor
            && after.oneOffs[|db.oneOffs|].session.startTime == start &&
                after.oneOffs[|db.oneOffs|].session.endTime == end
  {
    var after := Reschedule(db, id, date, newDate, start, end).value;
    var days, slots := ScheduledDays(db.sessions[id]), Replacements(db.oneOffs, id);
    assert Replacements(after.oneOffs, id) == slots + {|db.oneOffs|};
    assert ScheduledDays(after.sessions[id]) == days - {date};
    if date !in days {
      assert days - {date} == days;
    }
  }

  // ---- Reaching these states ----

  const THURSDAYS := NewSchedule(1, None, false, None, false, 1, None, 4, Some(0), Some(3600), Some(0), None)
  const LATER := PermanentChange(5, Some(0), Some(3600), Some(0), None, None, None, false)

  function Thursdays(): Db {
    Apply(EMPTY, OpCreate(1, THURSDAYS, 0))
  }

  lemma ThursdaysCreated()
    ensures var db := Thursdays();
            && Inv(db) && HasScheduled(db, 1, 0) && Found(db, 1) && db.schedules.Keys == {1} && db.privateClasses == {}
            && db.schedules[1].capacity == 1 && InWindow(db.schedules[1], 0)
            && forall d :: d in db.sessions[1] ==> db.sessions[1][d].status == Scheduled && !db.sessions[1][d].attended
  {
    EmptyInv();
    ApplyKeepsInv(EMPTY, OpCreate(1, THURSDAYS, 0));
    ThursdaysSessions();
    hide Inv, EndOfMonth, IsoWeekday, InitialSessions;
  }

  function ThursdaysRow(): Schedule {
    Schedule(1, None, None, 1, None, 4, 0, 3600, Some(0), None, Some(EndOfMonth(0)), false)
  }

  lemma ThursdaysSessions()
    ensures var known := InitialSessions(ThursdaysRow(), 0);
            && 0 in known && LiveScheduled(known[0])
            && forall d :: d in known ==> known[d].status == Scheduled && !known[d].attended
  {
    IsoWeekdayAnchor();
    EndOfMonthIsLast(0);
    hide EndOfMonth, IsoWeekday;
  }

  lemma Unroll(db: Db, op: Op, rest: seq<Op>)
    ensures Run(db, [op] + rest) == Run(Apply(db, op), rest)
  {
    assert ([op] + rest)[1..] == rest;
  }

  // Rescheduling one session twice leaves two replacements for one lesson.
  lemma RescheduledTwiceIsReachable()
    ensures var once := Run(EMPTY, [OpCreate(1, THURSDAYS, 0), OpReschedule(1, 0, 1, 0, 3600)]);
            var twice := Run(EMPTY,
                             [OpCreate(1, THURSDAYS, 0), OpReschedule(1, 0, 1, 0, 3600),
                              OpReschedule(1, 0, 2, 0, 3600)]);
            1 in once.sessions && 1 in twice.sessions && Lessons(twice, 1) == Lessons(once, 1) + 1
  {
    hide CreateSchedule, Inv, Lessons;
    var created, first, second := OpCreate(1, THURSDAYS, 0), OpReschedule(1, 0, 1, 0, 3600), OpReschedule(1, 0, 2, 0,
        3600);
    ThursdaysCreated();
    var db := Thursdays();
    var once := Apply(db, first);
    RescheduleMovesTheLesson(once, 1, 0, 2, 0, 3600);
    Unroll(EMPTY, created, [first]);
    Unroll(db, first, []);
    Unroll(EMPTY, created, [first, second]);
    Unroll(db, first, [second]);
    Unroll(once, second, []);
    assert [first] + [] == [first] && [second] + [] == [second];
  }

  // The stale substitution reaches a revived session outside its row from the empty tables.
  lemma RevivedIsReachable() returns (copy: Session)
    ensures var changed := Run(EMPTY, [OpCreate(1, THURSDAYS, 0), OpPermanent(1, 2, LATER, 0, 0)]);
            var saved := Apply(changed, OpStaleSubstitute(1, 1, 0, copy, 9));
            && HasScheduled(Thursdays(), 1, 0) && copy == Thursdays().sessions[1][0]
            && Removed(changed, 1, 0) && HasScheduled(saved, 1, 0) && !Fits(saved.schedules[1], 0)
  {
    ThursdaysCreated();
    hide Thursdays, Inv;
    var db := Thursdays();
    copy := db.sessions[1][0];
    assert ChangePermanent(db, 1, 2, LATER, 0, 0).Ok? by { hide InitialSessions, EndOfMonth, InWindow; }
    hide ChangePermanent;
    StaleSubstituteRevives(db, 1, 2, LATER, 0, 0, 0, 9);
    Unroll(EMPTY, OpCreate(1, THURSDAYS, 0), [OpPermanent(1, 2, LATER, 0, 0)]);
    Unroll(db, OpPermanent(1, 2, LATER, 0, 0), []);
    assert [OpPermanent(1, 2, LATER, 0, 0)] + [] == [OpPermanent(1, 2, LATER, 0, 0)];
    assert db == Apply(EMPTY, OpCreate(1, THURSDAYS, 0)) by { ThursdaysAre(); }
  }

  lemma ThursdaysAre()
    ensures Thursdays() == Apply(EMPTY, OpCreate(1, THURSDAYS, 0))
  {
  }
}
