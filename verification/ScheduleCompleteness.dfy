// No date is missed: over any run in which the worker is on time for the rows it extends,
// every date of every row up to its watermark has a session in the row's family.
module ScheduleCompleteness {
  import opened Common
  import opened Calendar
  import opened Generation
  import opened ScheduleVersions
  import opened ScheduleInvariants
  import opened ScheduleTheorems
  import opened ScheduleSessions

  // Some row of the family has a session on the date, removed or not.
  ghost predicate InFamily(db: Db, r: Id, d: Day) {
    r in db.family && exists q :: HasSession(db, q, d) && db.family[q] == db.family[r]
  }

  ghost predicate HasSession(db: Db, q: Id, d: Day) {
    q in db.family && q in db.sessions && d in db.sessions[q]
  }

  ghost predicate Filled(db: Db) {
    forall r, d :: r in db.schedules && Fits(db.schedules[r], d) && MarkedThrough(db, r, d) ==> InFamily(db, r, d)
  }

  // A worker step on time starts no later than the day after the row's watermark.
  predicate OnTimeStep(db: Db, op: Op) {
    op.OpWorker? && DueRow(db, op.id, op.window.horizon) && db.schedules[op.id].generatedUntil.Some? ==>
      op.window.monthStart <= db.schedules[op.id].generatedUntil.value + 1
  }

  ghost predicate OnTimeRun(db: Db, ops: seq<Op>)
    decreases ops
  {
    ops == [] || (OnTimeStep(db, ops[0]) && OnTimeRun(Apply(db, ops[0]), ops[1..]))
  }

  // A session of the family is in the family afterwards, perhaps on another row.
  lemma StaysInFamily(db: Db, op: Op, r: Id, q: Id, d: Day) returns (holder: Id)
    requires Inv(db) && r in db.family && HasSession(db, q, d) && db.family[q] == db.family[r]
    ensures var after := Apply(db, op);
            HasSession(after, holder, d) && r in after.family && after.family[holder] == after.family[r]
  {
    hide Inv, Apply, Saves;
    ApplyExtends(db, op);
    if op.OpTutor? {
      holder := AfterTutor(db, op, q, d);
    } else if Saves(op) {
      holder := AfterSave(db, op, q, d);
    } else {
      AfterOther(db, op, q, d);
      holder := q;
    }
  }

  lemma AfterTutor(db: Db, op: Op, q: Id, d: Day) returns (holder: Id)
    requires Inv(db) && HasSession(db, q, d) && op.OpTutor?
    ensures HasSession(Apply(db, op), holder, d) && Apply(db, op).family[holder] == db.family[q]
  {
    hide InWindow, LiveScheduled, Disjoint, Covering, GeneratedOnce, FamiliesInLineages, CheckTutor;
    holder := if HasSession(Apply(db, op), q, d) then q else op.newId;
  }

  lemma AfterSave(db: Db, op: Op, q: Id, d: Day) returns (holder: Id)
    requires Inv(db) && HasSession(db, q, d) && Saves(op)
    ensures HasSession(Apply(db, op), holder, d) && Apply(db, op).family[holder] == db.family[q]
  {
    hide Inv, Apply;
    SaveIs(db, op);
    holder := if HasSession(Apply(db, op), q, d) then q else op.id;
  }

  lemma AfterOther(db: Db, op: Op, q: Id, d: Day)
    requires Inv(db) && HasSession(db, q, d) && !op.OpTutor? && !Saves(op)
    ensures HasSession(Apply(db, op), q, d) && Apply(db, op).family[q] == db.family[q]
  {
    hide InWindow, LiveScheduled, Disjoint, Covering, GeneratedOnce, FamiliesInLineages, CheckNew, CheckPermanent,
         CheckChange,
         EndOfMonth, InitialSessions, Replacement, DueRow, FillFrom, DateSet;
  }

  lemma FilledBefore(db: Db, op: Op, r: Id, d: Day, source: Id)
    requires Inv(db) && Filled(db) && source in db.schedules && Fits(db.schedules[source], d)
    requires MarkedThrough(db, source, d)
    requires r in Apply(db, op).family && source in Apply(db, op).family
    requires Apply(db, op).family[r] == Apply(db, op).family[source]
    ensures InFamily(Apply(db, op), r, d)
  {
    hide Apply, Fits, Disjoint, Covering, GeneratedOnce, FamiliesInLineages;
    var q :| HasSession(db, q, d) && db.family[q] == db.family[source];
    var holder := StaysInFamily(db, op, source, q, d);
  }

  lemma WorkerFills(db: Db, op: Op, r: Id, d: Day)
    requires Inv(db) && Filled(db) && op.OpWorker? && OnTimeStep(db, op)
    requires var u := Apply(db, op); r in u.schedules && Fits(u.schedules[r], d) && MarkedThrough(u, r, d)
    ensures InFamily(Apply(db, op), r, d)
  {
    hide IsoWeekday, Disjoint, Covering, GeneratedOnce, FamiliesInLineages, Visible;
    var after := Apply(db, op);
    assert Fits(db.schedules[r], d) && Tables(db);
    if MarkedThrough(db, r, d) {
      FilledBefore(db, op, r, d, r);
    } else {
      assert HasSession(after, r, d);
    }
  }

  lemma CreateFills(db: Db, op: Op, r: Id, d: Day)
    requires Inv(db) && Filled(db) && op.OpCreate?
    requires var u := Apply(db, op); r in u.schedules && Fits(u.schedules[r], d) && MarkedThrough(u, r, d)
    ensures InFamily(Apply(db, op), r, d)
  {
    hide IsoWeekday, EndOfMonth, CheckNew, Disjoint, Covering, GeneratedOnce, FamiliesInLineages;
    if r in db.schedules {
      FilledBefore(db, op, r, d, r);
    } else {
      assert HasSession(Apply(db, op), r, d);
    }
  }

  lemma PermanentFills(db: Db, op: Op, r: Id, d: Day)
    requires Inv(db) && Filled(db) && op.OpPermanent?
    requires var u := Apply(db, op); r in u.schedules && Fits(u.schedules[r], d) && MarkedThrough(u, r, d)
    ensures InFamily(Apply(db, op), r, d)
  {
    hide Inv, Filled, InFamily, MarkedThrough, Apply, Fits;
    if r in db.schedules {
      PermanentShortens(db, op, r, d);
      ApplyExtends(db, op);
      InvTables(db);
      FilledBefore(db, op, r, d, r);
    } else {
      PermanentStarts(db, op, r, d);
    }
  }

  lemma PermanentShortens(db: Db, op: Op, r: Id, d: Day)
    requires Inv(db) && op.OpPermanent? && r in db.schedules
    requires var u := Apply(db, op); r in u.schedules && Fits(u.schedules[r], d) && MarkedThrough(u, r, d)
    ensures Fits(db.schedules[r], d) && MarkedThrough(db, r, d)
  {
    hide IsoWeekday, EndOfMonth, CheckChange, Cancel, InitialSessions, Replacement, Disjoint, Covering, GeneratedOnce,
         FamiliesInLineages;
  }

  lemma PermanentStarts(db: Db, op: Op, r: Id, d: Day)
    requires Inv(db) && op.OpPermanent? && r !in db.schedules
    requires var u := Apply(db, op); r in u.schedules && Fits(u.schedules[r], d) && MarkedThrough(u, r, d)
    ensures InFamily(Apply(db, op), r, d)
  {
    hide IsoWeekday, EndOfMonth, CheckChange, Cancel, Disjoint, Covering, GeneratedOnce, FamiliesInLineages;
    assert HasSession(Apply(db, op), r, d);
  }

  lemma TutorFills(db: Db, op: Op, r: Id, d: Day)
    requires Inv(db) && Filled(db) && op.OpTutor?
    requires var u := Apply(db, op); r in u.schedules && Fits(u.schedules[r], d) && MarkedThrough(u, r, d)
    ensures InFamily(Apply(db, op), r, d)
  {
    hide IsoWeekday, Moved, Staying, SetTutor, TutorChangeKind, Disjoint, Covering, GeneratedOnce, FamiliesInLineages;
    var source := if r in db.schedules then r else op.id;
    FilledBefore(db, op, r, d, source);
  }

  lemma OtherFills(db: Db, op: Op, r: Id, d: Day)
    requires Inv(db) && Filled(db) && !op.OpWorker? && !op.OpCreate? && !op.OpPermanent? && !op.OpTutor?
    requires var u := Apply(db, op); r in u.schedules && Fits(u.schedules[r], d) && MarkedThrough(u, r, d)
    ensures InFamily(Apply(db, op), r, d)
  {
    hide IsoWeekday, CheckChange, Cancel, Disjoint, Covering, GeneratedOnce, FamiliesInLineages;
    FilledBefore(db, op, r, d, r);
  }

  lemma ApplyKeepsFilled(db: Db, op: Op)
    requires Inv(db) && Filled(db) && OnTimeStep(db, op)
    ensures Filled(Apply(db, op))
  {
    hide Inv, Apply, Fits, MarkedThrough, InFamily, OnTimeStep;
    var after := Apply(db, op);
    forall r, d | r in after.schedules && Fits(after.schedules[r], d) && MarkedThrough(after, r, d)
      ensures InFamily(after, r, d)
    {
      match op
      case OpWorker(_, _) => WorkerFills(db, op, r, d);
      case OpCreate(_, _, _) => CreateFills(db, op, r, d);
      case OpPermanent(_, _, _, _, _) => PermanentFills(db, op, r, d);
      case OpTutor(_, _, _, _, _) => TutorFills(db, op, r, d);
      case _ => OtherFills(db, op, r, d);
    }
  }

  lemma {:induction false} RunKeepsFilled(db: Db, ops: seq<Op>)
    requires Inv(db) && Filled(db) && OnTimeRun(db, ops)
    ensures Inv(Run(db, ops)) && Filled(Run(db, ops))
    decreases ops
  {
    hide Inv, Apply, Filled, OnTimeStep;
    if ops != [] {
      ApplyKeepsFilled(db, ops[0]);
      ApplyKeepsInv(db, ops[0]);
      RunKeepsFilled(Apply(db, ops[0]), ops[1..]);
    }
  }

  // Through any creations, changes, edits and deletions, and whichever rows the worker
  // extended before: after a step of the worker that was always on time, every fitting date
  // of the row up to the horizon has a session in its family.
  lemma NoDateMissed(ops: seq<Op>, r: Id, w: Window, d: Day)
    requires OnTimeRun(EMPTY, ops) && OnTimeStep(Run(EMPTY, ops), OpWorker(r, w))
    requires r in Run(EMPTY, ops).schedules && Visible(Run(EMPTY, ops), Run(EMPTY, ops).schedules[r])
    requires Fits(Run(EMPTY, ops).schedules[r], d) && d <= w.horizon
    ensures InFamily(WorkerStep(Run(EMPTY, ops), r, w), r, d)
  {
    hide Run, IsoWeekday, Disjoint, Covering, GeneratedOnce, FamiliesInLineages, OnTimeRun, OnTimeStep, InFamily,
         Visible, Fill;
    EmptyInv();
    RunKeepsFilled(EMPTY, ops);
    var db := Run(EMPTY, ops);
    ApplyKeepsFilled(db, OpWorker(r, w));
    assert Tables(db);
    var after := Apply(db, OpWorker(r, w));
    assert after == WorkerStep(db, r, w);
    assert Fits(after.schedules[r], d) && MarkedThrough(after, r, d);
  }
}
