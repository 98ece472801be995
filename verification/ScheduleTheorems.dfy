// What the invariant means for whole runs of schedule transactions.
module ScheduleTheorems {
  import opened Common
  import opened Calendar
  import opened Generation
  import opened ScheduleVersions
  import opened ScheduleInvariants

  lemma EmptyInv()
    ensures Inv(EMPTY)
  {
  }

  // Lineages and families are never rewritten, only extended.
  ghost predicate Extends(db: Db, after: Db) {
    && db.nextTag <= after.nextTag
    && (forall r :: r in db.lineage ==> r in after.lineage && after.lineage[r] == db.lineage[r])
    && (forall r :: r in db.family ==> r in after.family && after.family[r] == db.family[r])
    && (forall l :: l in db.original ==> l in after.original && after.original[l] == db.original[l])
    && (forall r :: r in db.schedules ==> r in after.schedules && r in after.sessions)
  }

  lemma SetRowExtends(db: Db, id: Id, s: RowState)
    requires Tables(db) && id in db.schedules
    ensures Extends(db, SetRow(db, id, s))
  {
  }

  lemma AddRowExtends(db: Db, id: Id, s: RowState, lineage: nat, family: nat, original: map<nat, Schedule>,
                      nextTag: nat)
    requires Tables(db) && id !in db.schedules && db.nextTag <= nextTag
    requires forall l :: l in db.original ==> l in original && original[l] == db.original[l]
    ensures Extends(db, AddRow(db, id, s, lineage, family).(original := original, nextTag := nextTag))
  {
  }

  lemma ExtendsTransitive(a: Db, b: Db, c: Db)
    requires Extends(a, b) && Extends(b, c)
    ensures Extends(a, c)
  {
    assert forall r :: r in a.lineage ==> r in b.lineage;
    assert forall r :: r in a.family ==> r in b.family;
    assert forall l :: l in a.original ==> l in b.original;
  }

  lemma SplitExtends(db: Db, id: Id, newId: Id, kept: RowState, added: RowState, lineage: nat, family: nat,
                     nextTag: nat)
    requires Inv(db) && id in db.schedules && newId !in db.schedules && db.nextTag <= nextTag
    requires kept.row.generatedUntil.Some?
    ensures Extends(db, AddRow(SetRow(db, id, kept), newId, added, lineage, family).(nextTag := nextTag))
  {
    hide InWindow, LiveScheduled, Fits, Disjoint, Covering, GeneratedOnce, FamiliesInLineages;
    var mid := SetRow(db, id, kept);
    SetRowExtends(db, id, kept);
    assert Tables(mid);
    AddRowExtends(mid, newId, added, lineage, family, mid.original, nextTag);
    var after := AddRow(mid, newId, added, lineage, family).(nextTag := nextTag);
    assert after == AddRow(mid, newId, added, lineage, family).(original := mid.original, nextTag := nextTag);
    ExtendsTransitive(db, mid, after);
  }

  lemma ApplyExtends(db: Db, op: Op)
    requires Inv(db)
    ensures Extends(db, Apply(db, op))
  {
    hide Disjoint, Covering, GeneratedOnce, FamiliesInLineages, CheckNew, CheckChange,
         Generate, EndOfMonth, Cancel, Moved, Staying, SetTutor, InitialSessions, Replacement, TutorChangeKind,
         AddRow, SetRow, Extends;
    match op
    case OpCreate(id, item, now) =>
      CreateExtends(db, id, item, now);
    case OpPermanent(id, newId, req, today, occupied) => PermanentExtends(db, id, newId, req, today, occupied);
    case OpTutor(id, newId, tutor, active, effective) => TutorExtends(db, id, newId, tutor, active, effective);
    case OpDeleteClass(_, _, _) => ClassDeletionExtends(db, op);
    case _ => OtherExtends(db, op);
  }

  lemma CreateExtends(db: Db, id: Id, item: NewSchedule, now: Day)
    requires Inv(db)
    ensures Extends(db, Committed(db, CreateSchedule(db, id, item, now)))
  {
    hide Disjoint, Covering, GeneratedOnce, FamiliesInLineages, CheckNew, EndOfMonth, InitialSessions;
  }

  lemma PermanentExtends(db: Db, id: Id, newId: Id, req: PermanentChange, today: Day, occupied: nat)
    requires Inv(db)
    ensures Extends(db, Committed(db, ChangePermanent(db, id, newId, req, today, occupied)))
  {
    hide InWindow, LiveScheduled, Disjoint, Covering, GeneratedOnce, FamiliesInLineages, CheckChange, EndOfMonth,
         Cancel,
         InitialSessions, AddRow;
    var r := ChangePermanent(db, id, newId, req, today, occupied);
    if r.Ok? {
      var e := req.effective.value;
      var added := Replacement(db.schedules[id], req);
      SplitExtends(db, id, newId, RowState(db.schedules[id].(validUntil := Some(e - 1)), Cancel(db.sessions[id], e)),
                   RowState(added, InitialSessions(added, e)), LineageOf(db, id), db.nextTag, db.nextTag + 1);
    } else {
      assert Extends(db, db);
    }
  }

  lemma TutorExtends(db: Db, id: Id, newId: Id, tutor: Id, tutorActive: bool, effective: Day)
    requires Inv(db)
    ensures Extends(db, Committed(db, ChangeTutor(db, id, newId, tutor, tutorActive, effective)))
  {
    hide InWindow, LiveScheduled, Disjoint, Covering, GeneratedOnce, FamiliesInLineages, Moved, Staying, SetTutor,
         TutorChangeKind;
    var r := ChangeTutor(db, id, newId, tutor, tutorActive, effective);
    assert Extends(db, db);
    if r.Ok? && TutorChangeKind(db.schedules[id], tutor) == SplitRow {
      var row, known := db.schedules[id], db.sessions[id];
      SplitExtends(db, id, newId, RowState(row.(validUntil := Some(effective - 1)), Staying(known, effective)),
                   RowState(row.(tutor := Some(tutor), validFrom := Some(effective)), Moved(known, effective, tutor)),
                   LineageOf(db, id), FamilyOf(db, id), db.nextTag);
    }
  }

  lemma ClassDeletionExtends(db: Db, op: Op)
    requires Inv(db) && op.OpDeleteClass?
    ensures Extends(db, Apply(db, op))
  {
    hide LiveScheduled, Disjoint, Covering, GeneratedOnce, FamiliesInLineages, Cancel, CancelReplacement, OfClass;
  }

  lemma OtherExtends(db: Db, op: Op)
    requires Inv(db)
    requires !op.OpCreate? && !op.OpPermanent? && !op.OpTutor? && !op.OpDeleteClass?
    ensures Extends(db, Apply(db, op))
  {
    hide InWindow, LiveScheduled, Disjoint, Covering, GeneratedOnce, FamiliesInLineages, CheckChange, Generate, Cancel,
         Due, Visible;
  }

  lemma {:induction false} RunExtends(db: Db, ops: seq<Op>)
    requires Inv(db)
    ensures Extends(db, Run(db, ops))
    decreases |ops|
  {
    if ops != [] {
      ApplyKeepsInv(db, ops[0]);
      ApplyExtends(db, ops[0]);
      RunExtends(Apply(db, ops[0]), ops[1..]);
      ExtendsTransitive(db, Apply(db, ops[0]), Run(db, ops));
    }
    hide Inv, Apply;
  }

  // Over every run, the validity windows of a lineage's rows stay pairwise disjoint
  // and their union is exactly the window the lineage was created with.
  lemma WindowsPartition(ops: seq<Op>, l: nat, d: Day)
    requires l in Run(EMPTY, ops).original
    ensures InWindow(Run(EMPTY, ops).original[l], d) <==>
            exists r :: RowCovers(Run(EMPTY, ops), l, r, d)
    ensures forall r, q :: RowCovers(Run(EMPTY, ops), l, r, d) && RowCovers(Run(EMPTY, ops), l, q, d) ==> r == q
  {
    hide IsoWeekday, InWindow, Run;
    EmptyInv();
    RunKeepsInv(EMPTY, ops);
    var db := Run(EMPTY, ops);
    if InWindow(db.original[l], d) {
      assert CoveredBy(db, l, d);
      var r :| r in db.schedules && db.lineage[r] == l && InWindow(db.schedules[r], d);
      assert RowCovers(db, l, r, d);
    }
  }

  ghost predicate RowCovers(db: Db, l: nat, r: Id, d: Day) {
    r in db.schedules && r in db.lineage && db.lineage[r] == l && InWindow(db.schedules[r], d)
  }

  // ---- The watermark ----

  ghost predicate MarkedThrough(db: Db, r: Id, until: Day) {
    r in db.schedules && db.schedules[r].generatedUntil.Some? && until <= db.schedules[r].generatedUntil.value
  }

  lemma MarkNeverFalls(db: Db, op: Op, r: Id, until: Day)
    requires Inv(db) && MarkedThrough(db, r, until)
    ensures MarkedThrough(Apply(db, op), r, until)
  {
    hide Disjoint, Covering, GeneratedOnce, FamiliesInLineages, CheckNew, CheckPermanent, CheckTutor, CheckChange,
         EndOfMonth, InitialSessions, Replacement, DueRow, TutorChangeKind, Fill, FillFrom, Moved, Staying, Cancel,
         SetTutor;
  }

  // No row of the family may still generate the day.
  ghost predicate ClosedAt(db: Db, f: nat, d: Day) {
    f < db.nextTag
    && forall q :: q in db.schedules && q in db.family && db.family[q] == f && InWindow(db.schedules[q], d) ==>
         MarkedThrough(db, q, d)
  }

  lemma TutorKeepsClosed(db: Db, op: Op, f: nat, d: Day)
    requires Inv(db) && ClosedAt(db, f, d) && op.OpTutor?
    ensures ClosedAt(Apply(db, op), f, d)
  {
    hide LiveScheduled, Disjoint, Covering, GeneratedOnce, FamiliesInLineages, TutorChangeKind, Moved, Staying,
         SetTutor;
    var after := Apply(db, op);
    forall q | q in after.schedules && q in after.family && after.family[q] == f && InWindow(after.schedules[q], d)
      ensures MarkedThrough(after, q, d)
    {
      var source := if q in db.schedules then q else op.id;
      assert source in db.schedules && db.family[source] == f;
      assert InWindow(db.schedules[source], d);
    }
  }

  lemma PermanentKeepsClosed(db: Db, op: Op, f: nat, d: Day)
    requires Inv(db) && ClosedAt(db, f, d) && op.OpPermanent?
    ensures ClosedAt(Apply(db, op), f, d)
  {
    hide LiveScheduled, Disjoint, Covering, GeneratedOnce, FamiliesInLineages, CheckChange, ValidRequest,
         EndOfMonth, InitialSessions, Replacement, Cancel;
    var after := Apply(db, op);
    forall q | q in after.schedules && q in after.family && after.family[q] == f && InWindow(after.schedules[q], d)
      ensures MarkedThrough(after, q, d)
    {
      assert q in db.schedules && db.family[q] == f;
      assert InWindow(db.schedules[q], d);
    }
  }

  lemma ClassDeletionKeepsClosed(db: Db, op: Op, f: nat, d: Day)
    requires Inv(db) && ClosedAt(db, f, d) && op.OpDeleteClass?
    ensures ClosedAt(Apply(db, op), f, d)
  {
    hide LiveScheduled, Disjoint, Covering, GeneratedOnce, FamiliesInLineages, Cancel, CancelReplacement;
    var after := Apply(db, op);
    forall q | q in after.schedules && q in after.family && after.family[q] == f && InWindow(after.schedules[q], d)
      ensures MarkedThrough(after, q, d)
    {
      assert MarkedThrough(db, q, d);
    }
  }

  lemma OtherKeepsClosed(db: Db, op: Op, f: nat, d: Day)
    requires Inv(db) && ClosedAt(db, f, d) && !op.OpPermanent? && !op.OpTutor? && !op.OpDeleteClass?
    ensures ClosedAt(Apply(db, op), f, d)
  {
    hide LiveScheduled, Disjoint, Covering, GeneratedOnce, FamiliesInLineages, CheckNew, CheckChange,
         EndOfMonth, InitialSessions, DueRow, Fill, FillFrom, Cancel;
    var after := Apply(db, op);
    forall q | q in after.schedules && q in after.family && after.family[q] == f && InWindow(after.schedules[q], d)
      ensures MarkedThrough(after, q, d)
    {
      assert q in db.schedules && InWindow(db.schedules[q], d);
    }
  }

  lemma ClosedStays(db: Db, op: Op, f: nat, d: Day)
    requires Inv(db) && ClosedAt(db, f, d)
    ensures ClosedAt(Apply(db, op), f, d)
  {
    hide Inv, ClosedAt, Apply;
    if op.OpTutor? {
      TutorKeepsClosed(db, op, f, d);
    } else if op.OpPermanent? {
      PermanentKeepsClosed(db, op, f, d);
    } else if op.OpDeleteClass? {
      ClassDeletionKeepsClosed(db, op, f, d);
    } else {
      OtherKeepsClosed(db, op, f, d);
    }
  }

  lemma {:induction false} ClosedForGood(db: Db, ops: seq<Op>, f: nat, d: Day)
    requires Inv(db) && ClosedAt(db, f, d)
    ensures ClosedAt(Run(db, ops), f, d)
    decreases |ops|
  {
    hide Inv, Apply, ClosedAt;
    if ops != [] {
      ApplyKeepsInv(db, ops[0]);
      ClosedStays(db, ops[0], f, d);
      ClosedForGood(Apply(db, ops[0]), ops[1..], f, d);
    }
  }

  lemma {:induction false} WatermarkNeverFalls(db: Db, ops: seq<Op>, r: Id, until: Day)
    requires Inv(db) && MarkedThrough(db, r, until)
    ensures MarkedThrough(Run(db, ops), r, until)
    decreases |ops|
  {
    hide Inv, Apply, MarkedThrough;
    if ops != [] {
      ApplyKeepsInv(db, ops[0]);
      MarkNeverFalls(db, ops[0], r, until);
      WatermarkNeverFalls(Apply(db, ops[0]), ops[1..], r, until);
    }
  }

  // A date of a row's window at or below its watermark is generated by no later worker
  // step, neither for the row nor for any row of its tutor-change family, whatever the
  // clock of that step and whatever happened in between.
  lemma GeneratesAboveWatermark(db: Db, ops: seq<Op>, r: Id, d: Day, q: Id, w: Window)
    requires Inv(db) && r in db.schedules && InWindow(db.schedules[r], d) && MarkedThrough(db, r, d)
    ensures MarkedThrough(Run(db, ops), r, d)
    ensures q in Run(db, ops).sessions && q in Run(db, ops).family && Run(db, ops).family[q] == db.family[r]
            && q in WorkerStep(Run(db, ops), q, w).sessions && d in WorkerStep(Run(db, ops), q, w).sessions[q]
            ==> d in Run(db, ops).sessions[q]
  {
    hide Run, IsoWeekday, Covering, GeneratedOnce;
    WatermarkNeverFalls(db, ops, r, d);
    assert ClosedAt(db, db.family[r], d);
    ClosedForGood(db, ops, db.family[r], d);
    var after := Run(db, ops);
    if DueRow(after, q, w.horizon) {
      GenerateIsMonotone(RowOf(after, q), w.monthStart, w.horizon);
    }
    hide Generate, Visible, Due;
  }

  // ---- History ----

  // A permanent change or a deletion leaves completed and attended sessions alone: it
  // is refused when one of them lies in its range.
  ghost predicate IsHistory(s: Session) {
    !s.deleted && (s.status == Completed || s.attended)
  }

  lemma HistoryUntouched(db: Db, op: Op, r: Id, d: Day)
    requires Inv(db) && r in db.sessions && d in db.sessions[r] && IsHistory(db.sessions[r][d])
    requires op.OpPermanent? || op.OpDeleteSchedule? || op.OpWorker? || op.OpCreate?
    ensures r in Apply(db, op).sessions && d in Apply(db, op).sessions[r]
    ensures Apply(db, op).sessions[r][d] == db.sessions[r][d]
  {
    hide Disjoint, Covering, GeneratedOnce, FamiliesInLineages, CheckNew,
         EndOfMonth, InitialSessions, Replacement, DueRow, DateSet, FillFrom;
  }

  // A tutor change makes no such check: it leaves a session of the past as it is exactly when
  // it is refused, keeps the row, starts later, the session is no longer scheduled, or a first
  // assignment finds the session with that tutor already.
  lemma TutorChangeKeepsExactly(db: Db, op: Op, r: Id, d: Day)
    requires Inv(db) && r in db.sessions && d in db.sessions[r] && op.OpTutor?
    ensures var after := Apply(db, op);
            (d in after.sessions[r] && after.sessions[r][d] == db.sessions[r][d]) <==>
              (|| ChangeTutor(db, op.id, op.newId, op.tutor, op.tutorActive, op.effective).Err?
               || TutorChangeKind(db.schedules[op.id], op.tutor) == KeepRow
               || r != op.id || d < op.effective || !LiveScheduled(db.sessions[r][d])
               || (TutorChangeKind(db.schedules[op.id], op.tutor) == AssignInPlace
                   && db.sessions[r][d].tutor == op.tutor))
  {
    hide IsoWeekday, InWindow, Disjoint, Covering, GeneratedOnce, FamiliesInLineages;
  }
}
