// Laws of session generation on the database: passes over a created schedule refine
// one-shot generation, and a permanent tutor change commutes with generation.
module GenerationLaws {
  import opened Common
  import opened Calendar
  import opened Generation
  import opened ScheduleVersions
  import opened ScheduleInvariants

  // Sessions that stay on the shortened row: those before the effective date, and
  // those already cancelled, rescheduled, completed or deleted.
  predicate StaysOnOldRow(known: map<Day, Session>, effective: Day, d: Day) {
    d < effective || (d in known && !LiveScheduled(known[d]))
  }

  // The rows of a schedule that was not changed (whole), and of the same schedule
  // after the change (kept and added), when the same passes ran over both.
  ghost predicate Corresponds(start: RowState, effective: Day, tutor: Id, whole: RowState, kept: RowState,
                              added: RowState) {
    && start.row.generatedUntil.Some? && whole.row.generatedUntil.Some? && kept.row.generatedUntil.Some?
    && start.row.generatedUntil.value <= whole.row.generatedUntil.value
    && whole.row == start.row.(generatedUntil := whole.row.generatedUntil)
    && added.row ==
       start.row.(tutor := Some(tutor), validFrom := Some(effective), generatedUntil := whole.row.generatedUntil)
    && kept.row == start.row.(validUntil := Some(effective - 1), generatedUntil := kept.row.generatedUntil)
    && (kept.row.generatedUntil == whole.row.generatedUntil ||
        effective - 1 <= kept.row.generatedUntil.value <= whole.row.generatedUntil.value)
    && start.known.Keys <= whole.known.Keys
    && SessionsCorrespond(start.known, effective, tutor, whole.known, kept.known, added.known)
  }

  // Every session of the unchanged schedule is on exactly one of the two rows; only
  // the tutor of those on the added row differs.
  ghost predicate SessionsCorrespond(
    start: map<Day, Session>, effective: Day, tutor: Id,
    whole: map<Day, Session>, kept: map<Day, Session>, added: map<Day, Session>)
  {
    forall d :: CorrespondsAt(StaysOnOldRow(start, effective, d), tutor, At(whole, d), At(kept, d), At(added, d))
  }

  function At(known: map<Day, Session>, d: Day): Option<Session> {
    if d in known then Some(known[d]) else None
  }

  predicate CorrespondsAt(stays: bool, tutor: Id, whole: Option<Session>, kept: Option<Session>,
                          added: Option<Session>) {
    if whole.None? then kept.None? && added.None?
    else if stays then kept == whole && added.None?
    else kept.None? && added == Some(whole.value.(tutor := tutor))
  }

  // What the change itself establishes.
  ghost predicate Splittable(start: RowState, effective: Day) {
    && start.row.generatedUntil.Some?
    && CoversReplacement(start.row, effective)
    && (forall d :: d in start.known && InWindow(start.row, d) ==> d <= start.row.generatedUntil.value)
  }

  function KeptRow(start: RowState, effective: Day): RowState {
    RowState(start.row.(validUntil := Some(effective - 1)), Staying(start.known, effective))
  }

  function AddedRow(start: RowState, effective: Day, tutor: Id): RowState {
    RowState(start.row.(tutor := Some(tutor), validFrom := Some(effective)), Moved(start.known, effective, tutor))
  }

  lemma SplitCorresponds(start: RowState, effective: Day, tutor: Id)
    requires Splittable(start, effective)
    ensures Corresponds(start, effective, tutor, start, KeptRow(start, effective), AddedRow(start, effective, tutor))
  {
    hide InWindow, LiveScheduled;
  }

  lemma PassAt(s: RowState, w: Window, d: Day)
    ensures At(Pass(s, w).known, d) ==
            if d in s.known then Some(s.known[d])
            else if Due(s.row, w.horizon) && FillFrom(s.row, w.monthStart) <= d <= w.horizon && Fits(s.row, d)
              then Some(NewSession(s.row))
            else None
  {
    hide IsoWeekday, InWindow, NewSession;
  }

  lemma PassCorrespondsAt(start: RowState, effective: Day, tutor: Id, whole: RowState, kept: RowState, added: RowState,
                          w: Window, d: Day)
    requires Splittable(start, effective) && Corresponds(start, effective, tutor, whole, kept, added)
    ensures CorrespondsAt(StaysOnOldRow(start.known, effective, d), tutor,
                          At(Pass(whole, w).known, d), At(Pass(kept, w).known, d), At(Pass(added, w).known, d))
  {
    hide IsoWeekday, Pass, LiveScheduled;
    PassAt(whole, w, d);
    PassAt(kept, w, d);
    PassAt(added, w, d);
    assert CorrespondsAt(StaysOnOldRow(start.known, effective, d), tutor, At(whole.known, d), At(kept.known, d),
                         At(added.known, d));
    hide SessionsCorrespond;
  }

  lemma PassKeepsCorrespondence(start: RowState, effective: Day, tutor: Id, whole: RowState, kept: RowState,
                                added: RowState, w: Window)
    requires Splittable(start, effective) && Corresponds(start, effective, tutor, whole, kept, added)
    ensures Corresponds(start, effective, tutor, Pass(whole, w), Pass(kept, w), Pass(added, w))
  {
    forall d
      ensures CorrespondsAt(StaysOnOldRow(start.known, effective, d), tutor,
                            At(Pass(whole, w).known, d), At(Pass(kept, w).known, d), At(Pass(added, w).known, d))
    {
      PassCorrespondsAt(start, effective, tutor, whole, kept, added, w, d);
    }
    hide CorrespondsAt, StaysOnOldRow, At, Fill, FillFrom;
  }

  lemma {:induction false} PassesKeepCorrespondence(
    start: RowState, effective: Day, tutor: Id, whole: RowState, kept: RowState, added: RowState, windows: seq<Window>)
    requires Splittable(start, effective) && Corresponds(start, effective, tutor, whole, kept, added)
    ensures Corresponds(start, effective, tutor, Passes(whole, windows), Passes(kept, windows), Passes(added, windows))
    decreases |windows|
  {
    hide Splittable, Corresponds, Pass;
    if windows != [] {
      PassKeepsCorrespondence(start, effective, tutor, whole, kept, added, windows[0]);
      PassesKeepCorrespondence(start, effective, tutor, Pass(whole, windows[0]), Pass(kept, windows[0]),
                               Pass(added, windows[0]), windows[1..]);
    }
  }

  // ---- On the database ----

  // Worker steps on one row, and on two rows in turn.
  function Steps(db: Db, id: Id, windows: seq<Window>): Db
    decreases windows
  {
    if windows == [] then db else Steps(WorkerStep(db, id, windows[0]), id, windows[1..])
  }

  function PairSteps(db: Db, id: Id, other: Id, windows: seq<Window>): Db
    decreases windows
  {
    if windows == [] then db
    else PairSteps(WorkerStep(WorkerStep(db, id, windows[0]), other, windows[0]), id, other, windows[1..])
  }

  lemma StepIsPass(db: Db, id: Id, w: Window)
    requires Found(db, id) && Visible(db, db.schedules[id])
    ensures Found(WorkerStep(db, id, w), id) && Visible(WorkerStep(db, id, w), WorkerStep(db, id, w).schedules[id])
    ensures RowOf(WorkerStep(db, id, w), id) == Pass(RowOf(db, id), w)
    ensures forall q :: q != id && Found(db, q) && Visible(db, db.schedules[q]) ==>
      Found(WorkerStep(db, id, w), q) && Visible(WorkerStep(db, id, w), db.schedules[q]) &&
          RowOf(WorkerStep(db, id, w), q) == RowOf(db, q)
  {
    hide Due, Fill, FillFrom;
  }

  lemma {:induction false} StepsArePasses(db: Db, id: Id, windows: seq<Window>)
    requires Found(db, id) && Visible(db, db.schedules[id])
    ensures Found(Steps(db, id, windows), id) && RowOf(Steps(db, id, windows), id) == Passes(RowOf(db, id), windows)
    decreases |windows|
  {
    hide WorkerStep, Pass, Visible;
    if windows != [] {
      StepIsPass(db, id, windows[0]);
      StepsArePasses(WorkerStep(db, id, windows[0]), id, windows[1..]);
    }
  }

  lemma {:induction false} PairStepsArePasses(db: Db, id: Id, other: Id, windows: seq<Window>)
    requires id != other && Found(db, id) && Visible(db, db.schedules[id]) && Found(db, other)
    requires Visible(db, db.schedules[other])
    ensures Found(PairSteps(db, id, other, windows), id)
    ensures RowOf(PairSteps(db, id, other, windows), id) == Passes(RowOf(db, id), windows)
    ensures Found(PairSteps(db, id, other, windows), other)
    ensures RowOf(PairSteps(db, id, other, windows), other) == Passes(RowOf(db, other), windows)
    decreases |windows|
  {
    hide WorkerStep, Pass, Visible;
    if windows != [] {
      StepIsPass(db, id, windows[0]);
      var mid := WorkerStep(db, id, windows[0]);
      StepIsPass(mid, other, windows[0]);
      PairStepsArePasses(WorkerStep(mid, other, windows[0]), id, other, windows[1..]);
    }
  }

  lemma InvisibleSteps(db: Db, id: Id, windows: seq<Window>)
    requires id in db.schedules && !Visible(db, db.schedules[id])
    ensures Steps(db, id, windows) == db
    decreases |windows|
  {
    if windows != [] { InvisibleSteps(db, id, windows[1..]); }
  }

  lemma InvisiblePairSteps(db: Db, id: Id, other: Id, windows: seq<Window>)
    requires id in db.schedules && !Visible(db, db.schedules[id]) && other in db.schedules
    requires !Visible(db, db.schedules[other])
    ensures PairSteps(db, id, other, windows) == db
    decreases |windows|
  {
    if windows != [] { InvisiblePairSteps(db, id, other, windows[1..]); }
  }

  lemma InvSplittable(db: Db, id: Id, effective: Day)
    requires Inv(db) && id in db.schedules && CoversReplacement(db.schedules[id], effective)
    ensures Splittable(RowOf(db, id), effective)
  {
    hide IsoWeekday, LiveScheduled, InWindow, Disjoint, Covering, FamiliesInLineages;
    var known := db.sessions[id];
    forall d | d in known && InWindow(db.schedules[id], d) ensures d <= db.schedules[id].generatedUntil.value {
      assert SameFamily(db, id, id);
      assert OnceAt(db, id, id, d);
    }
  }

  // For any reachable database, any effective date and any later worker passes, the
  // dates, times, statuses and every other field of the sessions are those of the
  // schedule left unchanged. Sessions before the effective date, and those removed
  // before the change, stay on the old row as they are; every other session is on the
  // new row, and differs only in its tutor.
  lemma TutorChangeCommutes(db: Db, id: Id, newId: Id, tutor: Id, tutorActive: bool, effective: Day,
                            windows: seq<Window>)
    requires Inv(db) && ChangeTutor(db, id, newId, tutor, tutorActive, effective).Ok?
    requires TutorChangeKind(db.schedules[id], tutor) == SplitRow
    ensures
      var changed := ChangeTutor(db, id, newId, tutor, tutorActive, effective).value;
      var whole, split := Steps(db, id, windows), PairSteps(changed, id, newId, windows);
      && id in whole.sessions && id in split.sessions && newId in split.sessions
      && SessionsCorrespond(db.sessions[id], effective, tutor, whole.sessions[id], split.sessions[id],
                            split.sessions[newId])
  {
    hide Inv, IsoWeekday, Splittable, Corresponds, SessionsCorrespond, Staying, Moved, Steps, PairSteps, Due, InWindow;
    var start := RowOf(db, id);
    var changed := ChangeTutor(db, id, newId, tutor, tutorActive, effective).value;
    InvSplittable(db, id, effective);
    SplitCorresponds(start, effective, tutor);
    var kept, added := KeptRow(start, effective), AddedRow(start, effective, tutor);
    assert id != newId && RowOf(changed, id) == kept && RowOf(changed, newId) == added;
    if Visible(db, start.row) {
      StepsArePasses(db, id, windows);
      PairStepsArePasses(changed, id, newId, windows);
      PassesKeepCorrespondence(start, effective, tutor, start, kept, added, windows);
      CorrespondsSessions(start, effective, tutor, Passes(start, windows), Passes(kept, windows),
                          Passes(added, windows));
    } else {
      InvisibleSteps(db, id, windows);
      InvisiblePairSteps(changed, id, newId, windows);
      CorrespondsSessions(start, effective, tutor, start, kept, added);
    }
  }

  lemma CorrespondsSessions(start: RowState, effective: Day, tutor: Id, whole: RowState, kept: RowState,
                            added: RowState)
    requires Corresponds(start, effective, tutor, whole, kept, added)
    ensures SessionsCorrespond(start.known, effective, tutor, whole.known, kept.known, added.known)
  {
  }

  // A row starts generated through the end of the month it begins in.
  lemma StartsGenerated(row: Schedule, from: Day)
    requires row.validFrom == Some(from) && row.generatedUntil == Some(EndOfMonth(from))
    ensures GeneratedThrough(RowState(row, InitialSessions(row, from)), from, MonthEnd(MonthOf(from)))
  {
    EndOfMonthIsLast(from);
    hide MonthOf, MonthStart, EndOfMonth, IsoWeekday, InWindow;
  }

  // A created schedule starts out generated through the end of its first month.
  lemma CreatedIsGenerated(db: Db, id: Id, item: NewSchedule, now: Day)
    requires CreateSchedule(db, id, item, now).Ok?
    ensures
      var row := RowOf(CreateSchedule(db, id, item, now).value, id);
      var start := if item.validFrom.Some? then item.validFrom.value else now;
      && GeneratedThrough(row, start, MonthEnd(MonthOf(start)))
      && row.row.validFrom == Some(start)
  {
    var start := if item.validFrom.Some? then item.validFrom.value else now;
    hide MonthOf, MonthStart, MonthEnd, EndOfMonth, CheckNew, InitialSessions, GeneratedThrough;
    StartsGenerated(CreateSchedule(db, id, item, now).value.schedules[id], start);
  }

  // From creation on, a live schedule's worker passes yield exactly the dates of one
  // generation from valid_from through the last horizon, as long as none of them comes
  // more than a month after the last month covered.
  lemma CreatedThenPassed(db: Db, id: Id, item: NewSchedule, now: Day, clock: seq<Day>, horizonMonths: nat)
    requires CreateSchedule(db, id, item, now).Ok?
    requires Visible(db, CreateSchedule(db, id, item, now).value.schedules[id])
    requires OnTime(MonthOf(if item.validFrom.Some? then item.validFrom.value else now), clock, horizonMonths)
    ensures
      var created := CreateSchedule(db, id, item, now).value;
      var start := if item.validFrom.Some? then item.validFrom.value else now;
      var last := CoveredUntil(MonthEnd(MonthOf(start)), WindowsOf(clock, horizonMonths));
      && id in Steps(created, id, WindowsOf(clock, horizonMonths)).sessions
      && Steps(created, id, WindowsOf(clock, horizonMonths)).sessions[id].Keys ==
         set d | d in Dates(created.schedules[id], start, last)
  {
    var created := CreateSchedule(db, id, item, now).value;
    var start := if item.validFrom.Some? then item.validFrom.value else now;
    CreatedIsGenerated(db, id, item, now);
    GapFreeMeansOnTime(MonthOf(start), clock, horizonMonths);
    assert Found(created, id) && Visible(created, created.schedules[id]);
    hide CreateSchedule, MonthOf, MonthEnd, WindowsOf, Steps, Passes, Dates, GeneratedThrough, Visible;
    StepsArePasses(created, id, WindowsOf(clock, horizonMonths));
    PassesRefineOneShot(RowOf(created, id), start, MonthEnd(MonthOf(start)), WindowsOf(clock, horizonMonths));
  }

  // A permanent change leaves the old row nothing scheduled from the effective date on, and
  // starts the new row generated, at the new times, through the end of the effective month.
  lemma ChangedIsGenerated(db: Db, id: Id, newId: Id, req: PermanentChange, today: Day, occupied: nat)
    requires id in db.sessions && ChangePermanent(db, id, newId, req, today, occupied).Ok?
    ensures
      var after := ChangePermanent(db, id, newId, req, today, occupied).value;
      var effective := req.effective.value;
      && id != newId && newId in after.schedules && newId in after.sessions && id in after.sessions
      && (forall d :: d in after.sessions[id] && effective <= d ==> !LiveScheduled(after.sessions[id][d]))
      && (forall d :: d in after.sessions[newId] ==>
            LiveScheduled(after.sessions[newId][d]) && after.sessions[newId][d].startTime == req.start.value &&
                after.sessions[newId][d].endTime == req.end.value)
      && GeneratedThrough(RowOf(after, newId), effective, MonthEnd(MonthOf(effective)))
  {
    ChangeFound(db, id, newId, req, today, occupied);
    StartsGenerated(Replacement(db.schedules[id], req), req.effective.value);
    hide MonthOf, MonthStart, MonthEnd, EndOfMonth, IsoWeekday, CheckPermanent, GeneratedThrough, DateSet;
  }

  // From the effective date on, the new row's on-time passes yield exactly the dates of one
  // generation from that date through the last horizon.
  lemma ChangedThenPassed(db: Db, id: Id, newId: Id, req: PermanentChange, today: Day, occupied: nat, clock: seq<Day>,
                          horizonMonths: nat)
    requires id in db.sessions && ChangePermanent(db, id, newId, req, today, occupied).Ok?
    requires Visible(db, ChangePermanent(db, id, newId, req, today, occupied).value.schedules[newId])
    requires OnTime(MonthOf(req.effective.value), clock, horizonMonths)
    ensures
      var changed := ChangePermanent(db, id, newId, req, today, occupied).value;
      var last := CoveredUntil(MonthEnd(MonthOf(req.effective.value)), WindowsOf(clock, horizonMonths));
      && newId in Steps(changed, newId, WindowsOf(clock, horizonMonths)).sessions
      && Steps(changed, newId, WindowsOf(clock, horizonMonths)).sessions[newId].Keys
         == set d | d in Dates(changed.schedules[newId], req.effective.value, last)
  {
    var changed := ChangePermanent(db, id, newId, req, today, occupied).value;
    var effective := req.effective.value;
    ChangedIsGenerated(db, id, newId, req, today, occupied);
    GapFreeMeansOnTime(MonthOf(effective), clock, horizonMonths);
    assert Found(changed, newId) && Visible(changed, changed.schedules[newId]);
    hide ChangePermanent, MonthOf, MonthEnd, WindowsOf, Steps, Passes, Dates, GeneratedThrough, Visible;
    StepsArePasses(changed, newId, WindowsOf(clock, horizonMonths));
    PassesRefineOneShot(RowOf(changed, newId), effective, MonthEnd(MonthOf(effective)),
                        WindowsOf(clock, horizonMonths));
  }
}
