// Seat safety over every interleaving of the statements.
module SeatTheorems {
  import opened Common
  import opened Calendar
  import opened Enrollments
  import opened EnrollmentTheorems
  import opened SeatProtocol
  import opened SeatRoom

  // ---- Commits keep it ----

  predicate WritesRow(work: Op) {
    TakesSeat(work) || Moves(work)
  }

  // The row a transaction writes.
  function RowWritten(l: Local): Enrollment
    requires WritesRow(l.work) && (NeedsRow(l.work) ==> l.row.Some?)
  {
    match l.work
    case OpSignup(_, student, class_, seat, _) => NewEnrollment(student, class_, seat)
    case OpAssign(_, schedule, _) => l.row.value.(schedule := Some(schedule))
    case OpResume(_, _) => l.row.value.(status := Active)
    case OpActivate(_) => l.row.value.(status := Active)
    case OpSuspend(_) => l.row.value.(status := Suspended)
    case OpDropRejected(_, payment) => l.row.value.(status := Dropped, payment := payment)
    case _ => l.row.value.(status := Dropped)
  }

  lemma CommitWrites(t: Tables, l: Local)
    requires Sound(t, l) && Ready(l) && WritesRow(l.work) && Effect(t, l).Ok?
    ensures Effect(t, l) == Ok(Written(t, l.work.id, RowWritten(l))) && SameOwner(t, l.work.id, RowWritten(l))
    ensures forall s :: HoldsSeat(RowWritten(l), s) ==>
        HoldsLock(l, s) || (l.work.id in t.enrollments && HoldsSeat(t.enrollments[l.work.id], s))
  {
    hide Seats, Duplicates;
  }

  lemma RemoveKeepsTables(t: Tables, schedule: Id, row: ScheduleRow)
    requires SeatSafe(t) && OneLive(t) && SchedulesExist(t) && ClassesMatch(t) && schedule in t.schedules
    requires row.class_ == t.schedules[schedule].class_ && row.capacity == t.schedules[schedule].capacity
    ensures var u := t.(schedules := t.schedules[schedule := row]);
            SeatSafe(u) && OneLive(u) && SchedulesExist(u) && ClassesMatch(u)
  {
    var u := t.(schedules := t.schedules[schedule := row]);
    hide HoldsSeat;
    forall s | s in u.schedules ensures Seats(u, s) <= u.schedules[s].capacity {
      assert Seats(u, s) == Seats(t, s);
    }
  }

  lemma CommitKeepsTables(st: State, p: Id)
    requires Safe(st) && Enabled(st, Commit(p))
    ensures var u := Committed(st.tables, st.procs[p]);
            SeatSafe(u) && OneLive(u) && SchedulesExist(u) && ClassesMatch(u)
  {
    hide Answer, SeatSafe, OneLive, SchedulesExist, ClassesMatch, Claims, Seats, HoldsSeat, Transferred, Enabled;
    CommitReady(st, p);
    var t, l := st.tables, st.procs[p];
    CommitIsAtomic(st, p);
    if l.work.OpRemoveSchedule? {
      RemoveKeepsTables(t, l.work.schedule, l.lock.value.row.(deleted := true));
    } else if Effect(t, l).Ok? {
      InvOf(t);
      ApplyKeepsInv(t, l.work);
      ApplyKeepsClasses(t, l.work);
      InvParts(Apply(t, l.work));
      hide Effect;
      assert Committed(t, l) == Apply(t, l.work);
    }
  }

  lemma CommitReady(st: State, p: Id)
    requires Safe(st) && Enabled(st, Commit(p))
    ensures p in st.procs && Sound(st.tables, st.procs[p]) && Ready(st.procs[p]) && !st.procs[p].work.OpRestore?
  {
  }

  lemma InvOf(t: Tables)
    requires SeatSafe(t) && OneLive(t) && SchedulesExist(t)
    ensures Inv(t)
  {
  }

  lemma InvParts(t: Tables)
    requires Inv(t)
    ensures SeatSafe(t) && OneLive(t) && SchedulesExist(t)
  {
  }

  // Splitting a schedule leaves alone a transaction that holds another.
  lemma SplitBeside(t: Tables, row: ScheduleRow, source: Id, target: Id, capacity: int, effective: Day, l: Local)
    requires Sound(t, l) && Room(t, l) && SchedulesExist(t) && source in t.schedules && target !in t.schedules
    requires !HoldsLock(l, source)
    requires forall id :: HoldsRow(l, id) && id in t.enrollments ==>
        !(HoldsSeat(t.enrollments[id], source) && t.enrollments[id].class_ == row.class_)
    ensures var u := Split(t, row, source, target, capacity, effective).value; Sound(u, l) && Room(u, l)
  {
    var u := Split(t, row, source, target, capacity, effective).value;
    if l.lock.Some? {
      var s := l.lock.value.schedule;
      assert forall id :: id in t.enrollments ==>
          (HoldsSeat(u.enrollments[id], s) <==> HoldsSeat(t.enrollments[id], s)) by {
        forall id | id in t.enrollments ensures HoldsSeat(u.enrollments[id], s) <==> HoldsSeat(t.enrollments[id], s) {
          assert t.enrollments[id].schedule.Some? ==> t.enrollments[id].schedule.value in t.schedules;
        }
      }
      SameSeats(t, u, s);
      SameSeated(t, u, l, s);
    }
    hide Seats, SeatedAlready, Transferred;
  }

  lemma SameSeats(t: Tables, u: Tables, s: Id)
    requires t.enrollments.Keys == u.enrollments.Keys
    requires forall id :: id in t.enrollments ==> (HoldsSeat(u.enrollments[id], s) <==> HoldsSeat(t.enrollments[id], s))
    ensures Seats(u, s) == Seats(t, s)
  {
    assert SeatSet(u.enrollments, s) == SeatSet(t.enrollments, s);
  }

  lemma SameSeated(t: Tables, u: Tables, l: Local, s: Id)
    requires t.enrollments.Keys == u.enrollments.Keys
    requires forall id :: id in t.enrollments ==> (HoldsSeat(u.enrollments[id], s) <==> HoldsSeat(t.enrollments[id], s))
    requires forall id :: id in t.enrollments ==> SameOwner(t, id, u.enrollments[id])
    ensures SeatedAlready(u, l, s) == SeatedAlready(t, l, s)
  {
    hide HoldsSeat;
    if SeatedAlready(t, l, s) {
      var d :| d in t.enrollments && d != l.work.id && HoldsSeat(t.enrollments[d], s)
        && t.enrollments[d].student == Candidate(l).student && t.enrollments[d].class_ == Candidate(l).class_;
      assert d in u.enrollments && HoldsSeat(u.enrollments[d], s);
    }
    if SeatedAlready(u, l, s) {
      var d :| d in u.enrollments && d != l.work.id && HoldsSeat(u.enrollments[d], s)
        && u.enrollments[d].student == Candidate(l).student && u.enrollments[d].class_ == Candidate(l).class_;
      assert d in t.enrollments && HoldsSeat(t.enrollments[d], s);
    }
  }

  lemma RemoveBeside(t: Tables, schedule: Id, row: ScheduleRow, l: Local)
    requires Sound(t, l) && Room(t, l) && !HoldsLock(l, schedule) && schedule in t.schedules
    ensures var u := t.(schedules := t.schedules[schedule := row]); Sound(u, l) && Room(u, l)
  {
    var u := t.(schedules := t.schedules[schedule := row]);
    if l.lock.Some? {
      SameSeats(t, u, l.lock.value.schedule);
      SameSeated(t, u, l, l.lock.value.schedule);
    }
    hide Seats, SeatedAlready;
  }

  // A committing transaction leaves every other one's rows, locks and counts alone.
  lemma CommitBeside(st: State, p: Id, q: Id)
    requires Safe(st) && Enabled(st, Commit(p)) && q in st.procs && q != p
    ensures var u := Committed(st.tables, st.procs[p]); Sound(u, st.procs[q]) && Room(u, st.procs[q])
  {
    hide Answer, Claims, Seats, HoldsSeat, Transferred, OneLive, ClassesMatch, ScheduleAccepted, RowAccepted,
         CountAccepted, ClassAccepted;
    var t, l, other := st.tables, st.procs[p], st.procs[q];
    assert Sound(t, l) && Sound(t, other) && Room(t, other);
    if Effect(t, l).Ok? {
      if WritesRow(l.work) {
        CommitWrites(t, l);
        RowBeside(st, p, q);
      } else if l.work.OpRemoveSchedule? {
        RemoveBeside(t, l.work.schedule, l.lock.value.row.(deleted := true), other);
      } else if Replaces(l.work) {
        SplitCommitBeside(st, p, q);
      }
    }
  }

  lemma RowBeside(st: State, p: Id, q: Id)
    requires Safe(st) && Enabled(st, Commit(p)) && q in st.procs && q != p && WritesRow(st.procs[p].work)
    requires Effect(st.tables, st.procs[p]).Ok?
    ensures var u := Written(st.tables, st.procs[p].work.id, RowWritten(st.procs[p]));
            Sound(u, st.procs[q]) && Room(u, st.procs[q])
  {
    hide Answer, Claims, Seats, HoldsSeat, OneLive, SchedulesExist, ClassesMatch, RowWritten, Shrinks, Room, SeatSafe;
    var t, l, other := st.tables, st.procs[p], st.procs[q];
    assert Sound(t, l) && Sound(t, other) && Room(t, other);
    CommitWrites(t, l);
    var id, e := l.work.id, RowWritten(l);
    assert !HoldsRow(other, id);
    assert LeavesRoom(t, other, id, e);
    hide Effect, Sound;
    WriteKeepsSound(t, id, e, other);
    WriteKeepsRoom(t, id, e, other);
  }

  lemma SplitCommitBeside(st: State, p: Id, q: Id)
    requires Safe(st) && Enabled(st, Commit(p)) && q in st.procs && q != p && Replaces(st.procs[p].work)
    requires Effect(st.tables, st.procs[p]).Ok?
    ensures var u := Committed(st.tables, st.procs[p]); Sound(u, st.procs[q]) && Room(u, st.procs[q])
  {
    hide Answer, Claims, Shrinks, Room, Seats, HoldsSeat, Transferred, OneLive, ClassesMatch, SeatSafe;
    var t, l, other := st.tables, st.procs[p], st.procs[q];
    assert Sound(t, l) && Sound(t, other) && Room(t, other);
    var source := l.lock.value.schedule;
    assert TransferFree(st, source, l.lock.value.row.class_);
    forall id | HoldsRow(other, id) && id in t.enrollments
      ensures !(HoldsSeat(t.enrollments[id], source) && t.enrollments[id].class_ == l.lock.value.row.class_)
    {
      assert !RowFree(st, id);
    }
    var capacity := if l.work.OpReplace? then l.work.capacity else l.lock.value.row.capacity;
    hide Sound;
    SplitBeside(t, l.lock.value.row, source, l.work.target, capacity, l.work.effective, other);
  }

  lemma CommitKeepsSafe(st: State, p: Id)
    requires Safe(st) && Enabled(st, Commit(p))
    ensures Safe(Do(st, Commit(p)))
  {
    hide Sound, Room, SeatSafe, OneLive, SchedulesExist, ClassesMatch, Effect;
    CommitKeepsTables(st, p);
    var after := Do(st, Commit(p));
    forall q | q in after.procs ensures Sound(after.tables, after.procs[q]) && Room(after.tables, after.procs[q]) {
      CommitBeside(st, p, q);
    }
  }

  // ---- Reads keep it ----

  predicate Reads(step: Step) {
    !step.Commit? && !step.Direct? && !step.Save?
  }

  // Reading, locking and counting change only the transaction's own record.
  lemma ReadKeepsSound(st: State, step: Step, q: Id)
    requires AllSound(st) && Enabled(st, step) && Reads(step) && q in Do(st, step).procs
    ensures Sound(st.tables, Do(st, step).procs[q])
  {
    hide Seats, Duplicates, RowFree, LockFree, Ended;
    assert q in st.procs ==> Sound(st.tables, st.procs[q]);
  }

  lemma ReadKeepsRoom(st: State, step: Step, q: Id)
    requires AllSound(st) && AllRoom(st) && Enabled(st, step) && Reads(step) && q in Do(st, step).procs
    ensures Room(st.tables, Do(st, step).procs[q])
  {
    hide Seats, Duplicates, RowFree, LockFree, Ended, HoldsSeat;
    assert q in st.procs ==> Sound(st.tables, st.procs[q]) && Room(st.tables, st.procs[q]);
    if q in st.procs && !step.Count? {
      SeatedSame(st.tables, st.procs[q], Do(st, step).procs[q]);
    }
    hide SeatedAlready;
  }

  // Only the work and the row a transaction read decide whether its student is seated.
  lemma SeatedSame(t: Tables, l: Local, m: Local)
    requires m.work == l.work && (m.row == l.row || l.row.None?)
    ensures m.row == l.row ==> forall s :: SeatedAlready(t, l, s) == SeatedAlready(t, m, s)
  {
  }

  // A lock is taken only while nobody holds it.
  lemma ReadKeepsExclusive(st: State, step: Step)
    requires Exclusive(st.procs) && Enabled(st, step) && Reads(step)
    ensures Exclusive(Do(st, step).procs)
  {
    hide Seats, Duplicates, ScheduleAccepted, RowAccepted, CountAccepted, ClassAccepted;
  }

  lemma ReadKeepsSafe(st: State, step: Step)
    requires Safe(st) && Enabled(st, step) && Reads(step)
    ensures Safe(Do(st, step)) && Do(st, step).tables == st.tables
  {
    hide SeatSafe, OneLive, SchedulesExist, ClassesMatch, Sound, Room, Exclusive, Enabled;
    ReadKeepsExclusive(st, step);
    forall q | q in Do(st, step).procs
      ensures Sound(st.tables, Do(st, step).procs[q]) && Room(st.tables, Do(st, step).procs[q])
    {
      ReadKeepsSound(st, step, q);
      ReadKeepsRoom(st, step, q);
    }
  }

  // ---- Over every interleaving ----

  // Every uncounted write of the run finds room when it comes.
  predicate RoomAlong(st: State, steps: seq<Step>)
    decreases steps
  {
    steps == [] || (HasRoom(st, steps[0]) && RoomAlong(Passed(st, steps[0]), steps[1..]))
  }

  lemma StepKeepsSafe(st: State, step: Step)
    requires Safe(st) && Enabled(st, step) && HasRoom(st, step)
    ensures Safe(Do(st, step))
  {
    hide Consistent, SeatSafe, AllRoom, Do, HasRoom;
    match step
    case Commit(p) => CommitKeepsSafe(st, p);
    case Direct(_) => RoomIsHonoured(st, step);
    case Save(_, _, _, _) => RoomIsHonoured(st, step);
    case _ => ReadKeepsSafe(st, step);
  }

  // No interleaving overbooks a schedule, breaks a count or gives a student two live
  // enrollments in a class, as long as every uncounted write finds room.
  lemma {:induction false} SafeUnderInterleaving(st: State, steps: seq<Step>)
    requires Safe(st) && RoomAlong(st, steps)
    ensures Safe(Execute(st, steps))
    decreases steps
  {
    hide Safe, Enabled, Do, HasRoom;
    if steps != [] {
      if Enabled(st, steps[0]) {
        StepKeepsSafe(st, steps[0]);
      }
      SafeUnderInterleaving(Passed(st, steps[0]), steps[1..]);
    }
  }

  // A state with no transaction running is safe when its tables are.
  lemma QuietIsSafe(t: Tables)
    requires Inv(t) && ClassesMatch(t)
    ensures Safe(State(t, map[]))
  {
    hide SeatSafe, OneLive, SchedulesExist, ClassesMatch;
  }

  // Read off it: capacity and uniqueness hold at every moment, mid-transaction included.
  lemma NeverOverbookedUnderInterleaving(t: Tables, steps: seq<Step>, schedule: Id)
    requires Inv(t) && ClassesMatch(t) && RoomAlong(State(t, map[]), steps)
    ensures var u := Execute(State(t, map[]), steps).tables;
            OneLive(u) && (schedule in u.schedules ==> Seats(u, schedule) <= u.schedules[schedule].capacity)
  {
    hide Execute, Seats, RoomAlong, OneLive;
    QuietIsSafe(t);
    SafeUnderInterleaving(State(t, map[]), steps);
  }

  // Of two signups of one student in one class that both found no duplicate, the second to
  // write is refused by the index.
  lemma RaceLoserRefused(st: State, p: Id, q: Id)
    requires Safe(st) && p != q && Enabled(st, Commit(p)) && Enabled(st, Commit(q))
    requires st.procs[p].work.OpSignup? && st.procs[q].work.OpSignup? && st.procs[p].work.id != st.procs[q].work.id
    requires st.procs[p].work.student == st.procs[q].work.student && st.procs[p].work.class_ == st.procs[q].work.class_
    requires Effect(st.tables, st.procs[p]).Ok? && st.procs[q].work.id !in st.tables.enrollments
    ensures var after := Do(st, Commit(p));
            Enabled(after, Commit(q)) && Effect(after.tables, after.procs[q]) == Err(DuplicateEnrollment)
  {
    hide Safe;
    var winner := st.procs[p].work.id;
    assert Live(Do(st, Commit(p)).tables.enrollments[winner]);
  }
}
