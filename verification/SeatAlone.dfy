// A transaction that nothing interleaves with: its statements, one after the other, do what the
// atomic transaction does, and end without a write whenever that one refuses.
module SeatAlone {
  import opened Common
  import opened Calendar
  import opened Enrollments
  import opened EnrollmentTheorems
  import opened SeatProtocol

  // Every statement that some transaction makes, in order; those that do not apply are passed
  // over. A signup looks for a duplicate before it counts, a resume after.
  function Statements(p: Id, work: Op): seq<Step> {
    [Begin(p, work), LockRow(p), LockSchedule(p), LockSession(p), CheckUnique(p), Count(p), CheckUnique(p), Commit(p),
     Abort(p)]
  }

  function Only(t: Tables, p: Id, l: Local): State {
    State(t, map[p := l])
  }

  // ---- One statement of the only transaction ----

  function RowLocked(t: Tables, l: Local): Local {
    if NeedsRow(l.work) && l.row.None? && Found(t, l.work.id) && RowAccepted(l.work, t.enrollments[l.work.id])
      then l.(row := Some(t.enrollments[l.work.id])) else l
  }

  function ScheduleLocked(t: Tables, l: Local): Local {
    if (NeedsRow(l.work) ==> l.row.Some?) && l.lock.None? && Wanted(l).Some? && ScheduleFound(t, Wanted(l).value)
       && ScheduleAccepted(l, t.schedules[Wanted(l).value])
      then l.(lock := Some(Lock(Wanted(l).value, t.schedules[Wanted(l).value]))) else l
  }

  function SessionLocked(l: Local): Local {
    if l.work.OpEditSession? then l.(session := true) else l
  }

  function UniqueChecked(t: Tables, l: Local): Local {
    if NeedsUnique(l.work) && (NeedsRow(l.work) ==> l.row.Some?)
       && (Wanted(l).Some? ==> l.lock.Some? && (l.work.OpResume? ==> l.counted.Some?))
       && !Duplicates(t, l.work.id, Candidate(l))
      then l.(unique := true) else l
  }

  function SeatsCounted(t: Tables, l: Local): Local {
    if l.lock.Some? && l.counted.None? && (l.work.OpSignup? ==> l.unique)
       && CountAccepted(l.work, Seats(t, l.lock.value.schedule), l.lock.value.row.capacity)
      then l.(counted := Some(Seats(t, l.lock.value.schedule))) else l
  }

  lemma LocksRow(t: Tables, p: Id, l: Local)
    ensures Passed(Only(t, p, l), LockRow(p)) == Only(t, p, RowLocked(t, l))
  {
  }

  lemma LocksSchedule(t: Tables, p: Id, l: Local)
    ensures Passed(Only(t, p, l), LockSchedule(p)) == Only(t, p, ScheduleLocked(t, l))
  {
    hide ScheduleAccepted, Ended;
  }

  lemma LocksSession(t: Tables, p: Id, l: Local)
    ensures Passed(Only(t, p, l), LockSession(p)) == Only(t, p, SessionLocked(l))
  {
  }

  lemma ChecksUnique(t: Tables, p: Id, l: Local)
    ensures Passed(Only(t, p, l), CheckUnique(p)) == Only(t, p, UniqueChecked(t, l))
  {
    hide Duplicates;
  }

  lemma CountsSeats(t: Tables, p: Id, l: Local)
    ensures Passed(Only(t, p, l), Count(p)) == Only(t, p, SeatsCounted(t, l))
  {
    hide Seats, CountAccepted;
  }

  // It commits exactly when all its checks were passed: nobody holds a row it needs.
  lemma Ends(t: Tables, p: Id, l: Local)
    requires l.row.Some? ==> NeedsRow(l.work)
    ensures Passed(Passed(Only(t, p, l), Commit(p)), Abort(p)) == State(if Ready(l) then Committed(t, l) else t, map[])
  {
    hide Effect, Committed, HoldsSeat;
    assert Ready(l) ==> CanCommit(Only(t, p, l), l);
  }

  // ---- All of them ----

  function Last(t: Tables, work: Op): Local {
    var locked := SessionLocked(ScheduleLocked(t, RowLocked(t, Local(work, None, None, false, None, false))));
    UniqueChecked(t, SeatsCounted(t, UniqueChecked(t, locked)))
  }

  lemma LastIsOfWork(t: Tables, work: Op)
    ensures Last(t, work).work == work && (Last(t, work).row.Some? ==> NeedsRow(work))
  {
    hide Seats, Duplicates, CountAccepted, ScheduleAccepted, RowAccepted;
  }

  lemma StatementsAre(t: Tables, p: Id, work: Op)
    requires Interleaved(work) && ClassAccepted(t, work)
    ensures Execute(State(t, map[]), Statements(p, work)) ==
            State(if Ready(Last(t, work)) then Committed(t, Last(t, work)) else t, map[])
  {
    var l0 := Local(work, None, None, false, None, false);
    var steps := Statements(p, work);
    assert Passed(State(t, map[]), Begin(p, work)) == Only(t, p, l0);
    hide Passed, Committed, Ready, RowLocked, ScheduleLocked, SessionLocked, UniqueChecked, SeatsCounted, Execute,
         ClassAccepted, Interleaved;
    var l1 := RowLocked(t, l0);
    var l2 := ScheduleLocked(t, l1);
    var l3 := SessionLocked(l2);
    var l4 := UniqueChecked(t, l3);
    var l5 := SeatsCounted(t, l4);
    LocksRow(t, p, l0);
    LocksSchedule(t, p, l1);
    LocksSession(t, p, l2);
    ChecksUnique(t, p, l3);
    CountsSeats(t, p, l4);
    ChecksUnique(t, p, l5);
    LastIsOfWork(t, work);
    Ends(t, p, Last(t, work));
    var end := Passed(Only(t, p, Last(t, work)), Commit(p));
    NineSteps(State(t, map[]), steps);
  }

  lemma NineSteps(st: State, s: seq<Step>)
    requires |s| == 9
    ensures Execute(st, s) ==
            Passed(Passed(Passed(Passed(Passed(Passed(Passed(Passed(Passed(st, s[0]), s[1]), s[2]), s[3]), s[4]), s[5]),
                                 s[6]), s[7]), s[8])
  {
    hide Passed, Execute;
    var x1 := Passed(st, s[0]);
    var x2 := Passed(x1, s[1]);
    var x3 := Passed(x2, s[2]);
    var x4 := Passed(x3, s[3]);
    var x5 := Passed(x4, s[4]);
    var x6 := Passed(x5, s[5]);
    var x7 := Passed(x6, s[6]);
    var x8 := Passed(x7, s[7]);
    assert s[0..] == s;
    OneStep(st, s, 0);
    OneStep(x1, s, 1);
    OneStep(x2, s, 2);
    OneStep(x3, s, 3);
    OneStep(x4, s, 4);
    OneStep(x5, s, 5);
    OneStep(x6, s, 6);
    OneStep(x7, s, 7);
    OneStep(x8, s, 8);
    NoStep(Passed(x8, s[8]), s[9..]);
  }

  lemma OneStep(st: State, s: seq<Step>, k: nat)
    requires k < |s|
    ensures Execute(st, s[k..]) == Execute(Passed(st, s[k]), s[k + 1..])
  {
    hide Enabled, Do;
    assert s[k..][0] == s[k] && s[k..][1..] == s[k + 1..];
  }

  lemma NoStep(st: State, s: seq<Step>)
    requires s == []
    ensures Execute(st, s) == st
  {
  }

  // ---- The statements refine the transaction ----

  lemma SignupDone(t: Tables, work: Op)
    requires work.OpSignup? && ClassAccepted(t, work)
    ensures Apply(t, work) == if Ready(Last(t, work)) then Committed(t, Last(t, work)) else t
  {
    hide Seats, Duplicates;
    var e := NewEnrollment(work.student, work.class_, work.seat);
    assert forall l: Local :: l.work == work ==> Candidate(l) == e;
  }

  lemma ResumeDone(t: Tables, work: Op)
    requires work.OpResume?
    ensures Apply(t, work) == if Ready(Last(t, work)) then Committed(t, Last(t, work)) else t
  {
    hide Seats, Duplicates;
    if Found(t, work.id) { SameDuplicate(t, work.id); }
  }

  lemma AssignDone(t: Tables, work: Op)
    requires work.OpAssign?
    ensures Apply(t, work) == if Ready(Last(t, work)) then Committed(t, Last(t, work)) else t
  {
    hide Seats, Duplicates;
  }

  lemma SameDuplicate(t: Tables, id: Id)
    requires id in t.enrollments
    ensures Duplicates(t, id, t.enrollments[id].(status := Active)) == Duplicates(t, id, t.enrollments[id])
  {
  }

  lemma OthersDone(t: Tables, work: Op)
    requires Interleaved(work) && !TakesSeat(work)
    ensures Apply(t, work) == if Ready(Last(t, work)) then Committed(t, Last(t, work)) else t
  {
    hide Seats, Duplicates, Transferred;
  }

  // Alone, the statements of a transaction leave exactly what the transaction leaves, errors and
  // refusals included, and hold nothing any more.
  lemma AloneIsAtomic(t: Tables, p: Id, work: Op)
    requires Interleaved(work)
    ensures Execute(State(t, map[]), Statements(p, work)) == State(Apply(t, work), map[])
  {
    hide Execute, Last, Ready, Committed;
    if ClassAccepted(t, work) {
      StatementsAre(t, p, work);
      match work
      case OpSignup(_, _, _, _, _) => SignupDone(t, work);
      case OpResume(_, _) => ResumeDone(t, work);
      case OpAssign(_, _, _) => AssignDone(t, work);
      case _ => OthersDone(t, work);
    } else {
      NeverBegun(t, p, work);
    }
  }

  lemma NeverBegun(t: Tables, p: Id, work: Op)
    requires !ClassAccepted(t, work)
    ensures Execute(State(t, map[]), Statements(p, work)) == State(Apply(t, work), map[])
  {
    hide Seats, Duplicates, Execute;
    NineSteps(State(t, map[]), Statements(p, work));
    assert Apply(t, work) == t;
  }
}
