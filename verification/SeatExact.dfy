// An uncounted write that finds no room can always be followed by an overbooking; so room is
// the exact condition for restoring an enrollment and for saving an earlier copy of one.
module SeatExact {
  import opened Common
  import opened Calendar
  import opened Enrollments
  import opened EnrollmentTheorems
  import opened SeatProtocol
  import opened SeatRoom
  import opened SeatTheorems

  predicate Counted(steps: seq<Step>) {
    forall k :: 0 <= k < |steps| ==> !Uncounted(steps[k])
  }

  // Some continuation without further uncounted writes overbooks a schedule.
  ghost predicate Overbooks(st: State) {
    exists steps :: Counted(steps) && !SeatSafe(Execute(st, steps).tables)
  }

  lemma OverbooksAfter(st: State, step: Step)
    requires Enabled(st, step) && !Uncounted(step) && Overbooks(Do(st, step))
    ensures Overbooks(st)
  {
    hide Enabled, Do, SeatSafe;
    var rest :| Counted(rest) && !SeatSafe(Execute(Do(st, step), rest).tables);
    ExecuteFirst(st, step, rest);
    assert Counted([step] + rest);
  }

  lemma OverbooksNow(st: State)
    requires !SeatSafe(st.tables)
    ensures Overbooks(st)
  {
    hide SeatSafe;
    assert Execute(st, []) == st && Counted([]);
  }

  // ---- One transaction left ----

  // It takes the seat it counted although the schedule is full by now.
  lemma TakesSeatLate(t: Tables, p: Id, l: Local)
    requires Sound(t, l) && TakesSeat(l.work) && l.lock.Some? && l.counted.Some?
    requires (l.work.OpSignup? ==> l.work.id !in t.enrollments)
    requires NeedsUnique(l.work) ==> !Duplicates(t, l.work.id, Candidate(l))
    requires Seats(t, l.lock.value.schedule) >= l.lock.value.row.capacity
    ensures Overbooks(State(t, map[p := l]))
  {
    hide Seats, HoldsSeat, Duplicates, Overbooks, ClassAccepted, ScheduleAccepted, CountAccepted;
    var st := State(t, map[p := l]);
    if NeedsUnique(l.work) && !l.unique {
      var checked := l.(unique := true);
      UniqueSound(t, l);
      CommitsLate(t, p, checked);
      assert Do(st, CheckUnique(p)) == State(t, map[p := checked]);
      OverbooksAfter(st, CheckUnique(p));
    } else {
      CommitsLate(t, p, l);
    }
  }

  lemma UniqueSound(t: Tables, l: Local)
    requires Sound(t, l)
    ensures Sound(t, l.(unique := true))
  {
  }

  lemma CommitsLate(t: Tables, p: Id, l: Local)
    requires Sound(t, l) && TakesSeat(l.work) && l.lock.Some? && l.counted.Some?
    requires (l.work.OpSignup? ==> l.work.id !in t.enrollments)
    requires NeedsUnique(l.work) ==> l.unique && !Duplicates(t, l.work.id, Candidate(l))
    requires Seats(t, l.lock.value.schedule) >= l.lock.value.row.capacity
    ensures Overbooks(State(t, map[p := l]))
  {
    hide Seats, Duplicates, Overbooks, ClassAccepted, ScheduleAccepted, CountAccepted;
    var st, s := State(t, map[p := l]), l.lock.value.schedule;
    var e := RowWritten(l);
    if NeedsUnique(l.work) { SameDuplicates(t, l); }
    assert Effect(t, l) == Ok(Written(t, l.work.id, e));
    assert Enabled(st, Commit(p));
    SeatsWritten(t, l.work.id, e, s);
    var after := Do(st, Commit(p));
    assert after.tables == Written(t, l.work.id, e);
    assert HoldsSeat(e, s) && !(l.work.id in t.enrollments && HoldsSeat(t.enrollments[l.work.id], s));
    assert Seats(after.tables, s) > after.tables.schedules[s].capacity;
    OverbooksNow(after);
    OverbooksAfter(st, Commit(p));
  }

  lemma SameDuplicates(t: Tables, l: Local)
    requires NeedsUnique(l.work) && (NeedsRow(l.work) ==> l.row.Some?)
    ensures Duplicates(t, l.work.id, RowWritten(l)) == Duplicates(t, l.work.id, Candidate(l))
  {
  }

  // A live enrollment can always be released or ended by one more transaction.
  function Ending(e: Enrollment, id: Id): Op {
    if e.status == Pending then OpRelease(id) else OpEnd(id)
  }

  lemma EndsEnrollment(t: Tables, p: Id, l: Local, d: Id)
    requires Sound(t, l) && d in t.enrollments && Live(t.enrollments[d]) && !HoldsRow(l, d)
    requires Overbooks(State(Written(t, d, t.enrollments[d].(status := Dropped)), map[p := l]))
    ensures Overbooks(State(t, map[p := l]))
  {
    hide Overbooks, Sound;
    var st, x, e := State(t, map[p := l]), p + 1, t.enrollments[d];
    var begun := Local(Ending(e, d), None, None, false, None, false);
    var locked := begun.(row := Some(e));
    assert Do(st, Begin(x, Ending(e, d))) == State(t, map[p := l, x := begun]);
    assert Do(State(t, map[p := l, x := begun]), LockRow(x)) == State(t, map[p := l, x := locked]);
    var ended := Do(State(t, map[p := l, x := locked]), Commit(x));
    assert ended.tables == Written(t, d, e.(status := Dropped)) && ended.procs == map[p := l];
    OverbooksAfter(State(t, map[p := l, x := locked]), Commit(x));
    OverbooksAfter(State(t, map[p := l, x := begun]), LockRow(x));
    OverbooksAfter(st, Begin(x, Ending(e, d)));
  }

  lemma ClaimOverdue(t: Tables, p: Id, l: Local)
    requires OneLive(t) && Sound(t, l) && Claims(t, l) && Seats(t, l.lock.value.schedule) >= l.lock.value.row.capacity
    ensures Overbooks(State(t, map[p := l]))
  {
    hide Seats, Overbooks;
    if NeedsUnique(l.work) && Duplicates(t, l.work.id, Candidate(l)) {
      var d :| d in t.enrollments && d != l.work.id && Live(t.enrollments[d])
        && t.enrollments[d].student == Candidate(l).student && t.enrollments[d].class_ == Candidate(l).class_;
      var dropped := t.enrollments[d].(status := Dropped);
      var u := Written(t, d, dropped);
      assert !HoldsRow(l, d) && !HoldsSeat(t.enrollments[d], l.lock.value.schedule) &&
          !HoldsSeat(dropped, l.lock.value.schedule);
      SeatsWritten(t, d, dropped, l.lock.value.schedule);
      WriteKeepsSound(t, d, dropped, l);
      assert !Duplicates(u, l.work.id, Candidate(l));
      hide Sound;
      TakesSeatLate(u, p, l);
      EndsEnrollment(t, p, l, d);
    } else {
      TakesSeatLate(t, p, l);
    }
  }

  // A schedule change hands the new row more seats than its capacity.
  lemma ShrinkOverdue(t: Tables, p: Id, l: Local)
    requires SchedulesExist(t) && ClassesMatch(t) && Sound(t, l) && Shrinks(t, l)
    requires Seats(t, l.lock.value.schedule) > l.work.capacity
    ensures Overbooks(State(t, map[p := l]))
  {
    hide Overbooks, Seats, HoldsSeat, Duplicates, Transferred;
    var st, s, target := State(t, map[p := l]), l.lock.value.schedule, l.work.target;
    assert Enabled(st, Commit(p));
    var after := Do(st, Commit(p));
    assert after.tables == Split(t, l.lock.value.row, s, target, l.work.capacity, l.work.effective).value;
    NoSeatsYet(t, target);
    MovedSeats(t, l.lock.value.row.class_, s, target, target);
    SeatsAre(after.tables, target);
    SeatsAre(t, s);
    assert after.tables.schedules[target].capacity == l.work.capacity;
    assert !SeatSafe(after.tables) by { assert Seats(after.tables, target) > after.tables.schedules[target].capacity; }
    OverbooksNow(after);
    OverbooksAfter(st, Commit(p));
  }

  lemma NoSeatsYet(t: Tables, target: Id)
    requires SchedulesExist(t) && target !in t.schedules
    ensures SeatSet(t.enrollments, target) == {}
  {
    forall id | id in t.enrollments ensures !HoldsSeat(t.enrollments[id], target) {
      assert t.enrollments[id].schedule.Some? ==> t.enrollments[id].schedule.value in t.schedules;
    }
  }

  // ---- All others aborted ----

  lemma {:induction false} OthersAbort(st: State, p: Id)
    requires p in st.procs && Overbooks(State(st.tables, map[p := st.procs[p]]))
    ensures Overbooks(st)
    decreases |st.procs|
  {
    hide Overbooks;
    if q :| q in st.procs && q != p {
      var after := Do(st, Abort(q));
      assert after.procs == st.procs - {q} && st.procs.Keys == after.procs.Keys + {q};
      OthersAbort(after, p);
      OverbooksAfter(st, Abort(q));
    } else {
      assert st.procs == map[p := st.procs[p]];
    }
  }

  lemma NoRoomOverbooks(st: State, p: Id)
    requires Consistent(st) && p in st.procs && !Room(st.tables, st.procs[p])
    ensures Overbooks(st)
  {
    hide Overbooks, Seats, OneLive, SchedulesExist, ClassesMatch, Claims, Exclusive;
    var t, l := st.tables, st.procs[p];
    assert Sound(t, l);
    if l.lock.None? { NoLockNoClaim(t, l); }
    if l.lock.Some? && Claims(t, l) && Seats(t, l.lock.value.schedule) >= l.lock.value.row.capacity {
      ClaimOverdue(t, p, l);
    } else {
      ShrinkOverdue(t, p, l);
    }
    OthersAbort(st, p);
  }

  // ---- The exact condition ----

  lemma {:induction false} CountedHasRoom(st: State, steps: seq<Step>)
    requires Counted(steps)
    ensures RoomAlong(st, steps)
    decreases steps
  {
    hide Enabled, Do;
    if steps != [] {
      assert !Uncounted(steps[0]);
      assert forall k :: 0 <= k < |steps[1..]| ==> steps[1..][k] == steps[k + 1];
      CountedHasRoom(Passed(st, steps[0]), steps[1..]);
    }
  }

  // Restoring an enrollment, or saving an earlier copy of one, is safe whatever follows exactly
  // when the row has no seat to take, or one is free beside every seat and capacity that
  // transactions holding the schedule have counted.
  lemma RoomExactly(st: State, step: Step)
    requires Safe(st) && Uncounted(step) && Enabled(st, step)
    ensures HasRoom(st, step) <==>
            forall steps :: RoomAlong(Do(st, step), steps) ==> SeatSafe(Execute(Do(st, step), steps).tables)
  {
    hide Enabled, Do, HasRoom, SeatSafe, Consistent, Room, RoomAlong, Execute;
    var after := Do(st, step);
    RoomIsHonoured(st, step);
    if HasRoom(st, step) {
      forall steps | RoomAlong(after, steps) ensures SeatSafe(Execute(after, steps).tables) {
        SafeUnderInterleaving(after, steps);
      }
    } else {
      if !SeatSafe(after.tables) {
        OverbooksNow(after);
      } else {
        var p :| p in after.procs && !Room(after.tables, after.procs[p]);
        NoRoomOverbooks(after, p);
      }
      var steps :| Counted(steps) && !SeatSafe(Execute(after, steps).tables);
      CountedHasRoom(after, steps);
    }
  }

  // ---- A restore between a count and its write ----

  const COUNTING := OpAssign(2, 9, 0)
  const BEGUN := Local(COUNTING, None, None, false, None, false)
  const LOCKED := BEGUN.(row := Some(SECOND), lock := Some(Lock(9, ScheduleRow(5, 1, None, false, None))))
  const RESTORED := REFUSED.(status := Pending, payment := PaymentPending)

  // The assignment locks its rows and counts, then goes on with the rest.
  function CountThen(rest: seq<Step>): seq<Step> {
    [Begin(7, COUNTING)] + ([LockRow(7)] + ([LockSchedule(7)] + ([Count(7)] + rest)))
  }

  lemma CountsFirst(rest: seq<Step>)
    ensures Execute(State(RefusedBeside(SECOND), map[]), CountThen(rest))
         == Execute(State(RefusedBeside(SECOND), map[7 := LOCKED.(counted := Some(0))]), rest)
  {
    var t := RefusedBeside(SECOND);
    var row := BEGUN.(row := Some(SECOND));
    assert SeatSet(t.enrollments, 9) == {};
    LocksFirst();
    assert Do(State(t, map[7 := LOCKED]), Count(7)) == State(t, map[7 := LOCKED.(counted := Some(0))]);
    ExecuteFirst(State(t, map[7 := LOCKED]), Count(7), rest);
    hide Enabled, Do;
    ExecuteFirst(State(t, map[]), Begin(7, COUNTING), [LockRow(7)] + ([LockSchedule(7)] + ([Count(7)] + rest)));
    ExecuteFirst(State(t, map[7 := BEGUN]), LockRow(7), [LockSchedule(7)] + ([Count(7)] + rest));
    ExecuteFirst(State(t, map[7 := row]), LockSchedule(7), [Count(7)] + rest);
  }

  lemma LocksFirst()
    ensures var t, row := RefusedBeside(SECOND), BEGUN.(row := Some(SECOND));
            && Enabled(State(t, map[]), Begin(7, COUNTING)) &&
                Do(State(t, map[]), Begin(7, COUNTING)) == State(t, map[7 := BEGUN])
            && Enabled(State(t, map[7 := BEGUN]), LockRow(7)) &&
                Do(State(t, map[7 := BEGUN]), LockRow(7)) == State(t, map[7 := row])
            && Enabled(State(t, map[7 := row]), LockSchedule(7)) &&
                Do(State(t, map[7 := row]), LockSchedule(7)) == State(t, map[7 := LOCKED])
  {
  }

  // The restore finds the one seat free, and so did the count of the assignment under way.
  lemma RestoreBesideCountOverbooks()
    ensures RestoreHasSeat(RefusedBeside(SECOND), 1) && Restore(RefusedBeside(SECOND), 1).Ok?
    ensures !SeatSafe(Execute(State(RefusedBeside(SECOND), map[]),
                              CountThen([Direct(OpRestore(1))] + [Commit(7)])).tables)
  {
    hide CountThen;
    CountsFirst([Direct(OpRestore(1))] + [Commit(7)]);
    RestoreThenCommit();
    assert SeatSet(RefusedBeside(SECOND).enrollments, 9) == {};
  }

  const AFTER_RESTORE := Tables(ONE_SEAT.classes, ONE_SEAT.schedules, map[1 := RESTORED, 2 := SECOND])
  const AFTER_COMMIT :=
    Tables(ONE_SEAT.classes, ONE_SEAT.schedules, map[1 := RESTORED, 2 := SECOND.(schedule := Some(9))])

  lemma RestoreThenCommit()
    ensures !SeatSafe(Execute(State(RefusedBeside(SECOND), map[7 := LOCKED.(counted := Some(0))]),
                              [Direct(OpRestore(1))] + [Commit(7)]).tables)
  {
    var t, counted := RefusedBeside(SECOND), LOCKED.(counted := Some(0));
    RestoreBesideCount();
    CommitBesideRestore();
    BothSeated();
    hide Enabled, Do, SeatSafe;
    ExecuteFirst(State(t, map[7 := counted]), Direct(OpRestore(1)), [Commit(7)]);
    ExecuteFirst(State(AFTER_RESTORE, map[7 := counted]), Commit(7), []);
    assert [Commit(7)] + [] == [Commit(7)];
  }

  lemma RestoreBesideCount()
    ensures var st := State(RefusedBeside(SECOND), map[7 := LOCKED.(counted := Some(0))]);
            && Enabled(st, Direct(OpRestore(1)))
            && Do(st, Direct(OpRestore(1))) == State(AFTER_RESTORE, map[7 := LOCKED.(counted := Some(0))])
  {
  }

  lemma CommitBesideRestore()
    ensures var st := State(AFTER_RESTORE, map[7 := LOCKED.(counted := Some(0))]);
            Enabled(st, Commit(7)) && Do(st, Commit(7)) == State(AFTER_COMMIT, map[])
  {
  }

  lemma BothSeated()
    ensures !SeatSafe(AFTER_COMMIT)
  {
    assert SeatSet(AFTER_COMMIT.enrollments, 9) == {1, 2};
    assert Seats(AFTER_COMMIT, 9) == 2;
  }

  // ---- Counts that stay current ----

  // Every count taken is still an upper bound, so every commit is atomic.
  ghost predicate CountsCurrent(st: State) {
    forall p :: p in st.procs && st.procs[p].counted.Some? && st.procs[p].lock.Some? ==>
      Seats(st.tables, st.procs[p].lock.value.schedule) <= st.procs[p].counted.value
  }

  // The write takes no seat the row did not hold.
  predicate TakesNoSeat(st: State, step: Step) {
    Uncounted(step) && Enabled(st, step) && WriteOf(st, step).Some? && WriteOf(st, step).value.schedule.Some? ==>
      var e, id := WriteOf(st, step).value, WriteTo(step);
      HoldsSeat(e, e.schedule.value) ==>
          id in st.tables.enrollments && HoldsSeat(st.tables.enrollments[id], e.schedule.value)
  }

  // Such writes, among them the restore of an enrollment without a schedule, always find room.
  lemma TakesNoSeatHasRoom(st: State, step: Step)
    requires TakesNoSeat(st, step)
    ensures HasRoom(st, step)
  {
    hide Seats, Claims, Shrinks, Enabled, WriteOf;
  }

  lemma CountsStayCurrent(st: State, step: Step)
    requires Safe(st) && CountsCurrent(st) && Enabled(st, step) && TakesNoSeat(st, step)
    ensures CountsCurrent(Do(st, step))
  {
    hide Seats, HoldsSeat, OneLive, SeatSafe, SchedulesExist, ClassesMatch, Room, Enabled, Do;
    var after := Do(st, step);
    forall p | p in after.procs && after.procs[p].counted.Some? && after.procs[p].lock.Some?
      ensures Seats(after.tables, after.procs[p].lock.value.schedule) <= after.procs[p].counted.value
    {
      CountStaysCurrent(st, step, p);
    }
  }

  lemma CountStaysCurrent(st: State, step: Step, p: Id)
    requires Safe(st) && CountsCurrent(st) && Enabled(st, step) && TakesNoSeat(st, step)
    requires p in Do(st, step).procs && Do(st, step).procs[p].counted.Some? && Do(st, step).procs[p].lock.Some?
    ensures Seats(Do(st, step).tables, Do(st, step).procs[p].lock.value.schedule) <= Do(st, step).procs[p].counted.value
  {
    hide Seats, HoldsSeat, OneLive, SeatSafe, Room, ClassesMatch, Duplicates, SchedulesExist;
    if Uncounted(step) {
      WriteCountsSame(st, step, p);
    } else if step.Commit? {
      CommitCountsFewer(st, step.proc, p);
    } else {
      assert p in st.procs ==> Sound(st.tables, st.procs[p]);
    }
  }

  lemma WriteCountsSame(st: State, step: Step, p: Id)
    requires Safe(st) && CountsCurrent(st) && Enabled(st, step) && TakesNoSeat(st, step) && Uncounted(step)
    requires p in st.procs && st.procs[p].counted.Some? && st.procs[p].lock.Some?
    ensures Do(st, step).procs == st.procs
    ensures Seats(Do(st, step).tables, st.procs[p].lock.value.schedule) <= st.procs[p].counted.value
  {
    hide Seats, Enabled, Do, WriteOf, SeatSafe, Room, GoodRow;
    WritesGoodRow(st, step);
    if WriteOf(st, step).Some? {
      SeatsWritten(st.tables, WriteTo(step), WriteOf(st, step).value, st.procs[p].lock.value.schedule);
    }
  }

  lemma CommitCountsFewer(st: State, p: Id, q: Id)
    requires Safe(st) && CountsCurrent(st) && Enabled(st, Commit(p)) && q in st.procs && q != p
    requires st.procs[q].counted.Some? && st.procs[q].lock.Some?
    ensures Seats(Do(st, Commit(p)).tables, st.procs[q].lock.value.schedule) <= st.procs[q].counted.value
  {
    hide Seats, HoldsSeat, OneLive, SeatSafe, Room, ClassesMatch, Duplicates;
    var t, l, s := st.tables, st.procs[p], st.procs[q].lock.value.schedule;
    assert Sound(t, l) && Sound(t, st.procs[q]);
    if Effect(t, l).Ok? {
      if WritesRow(l.work) {
        CommitWrites(t, l);
        SeatsWritten(t, l.work.id, RowWritten(l), s);
      } else if l.work.OpRemoveSchedule? {
        SeatsAre(t, s);
        SeatsAre(Do(st, Commit(p)).tables, s);
      } else if Replaces(l.work) {
        NoSeatsYet(t, l.work.target);
        TransferSeats(t.enrollments, l.lock.value.row.class_, l.lock.value.schedule, l.work.target, s);
        SeatsAre(t, s);
        SeatsAre(Do(st, Commit(p)).tables, s);
      }
    }
  }

  predicate NoSeatTakenAlong(st: State, steps: seq<Step>)
    decreases steps
  {
    steps == [] || (TakesNoSeat(st, steps[0]) && NoSeatTakenAlong(Passed(st, steps[0]), steps[1..]))
  }

  // While uncounted writes take no seat, every commit of every interleaving does what its
  // transaction would do alone at that moment.
  lemma {:induction false} CommitsAtomicUnderInterleaving(st: State, steps: seq<Step>, p: Id)
    requires Safe(st) && CountsCurrent(st) && NoSeatTakenAlong(st, steps)
    ensures Safe(Execute(st, steps)) && CountsCurrent(Execute(st, steps))
    ensures var u := Execute(st, steps);
            Enabled(u, Commit(p)) ==> Effect(u.tables, u.procs[p]) == Answer(u.tables, u.procs[p].work)
    decreases steps
  {
    hide Safe, CountsCurrent, Do, TakesNoSeat, HasRoom, Answer, Effect, CanCommit;
    if steps == [] {
      if Enabled(st, Commit(p)) {
        AtomicNow(st, p);
      }
    } else {
      if Enabled(st, steps[0]) {
        TakesNoSeatHasRoom(st, steps[0]);
        StepKeepsSafe(st, steps[0]);
        CountsStayCurrent(st, steps[0]);
      }
      CommitsAtomicUnderInterleaving(Passed(st, steps[0]), steps[1..], p);
    }
  }

  lemma AtomicNow(st: State, p: Id)
    requires Safe(st) && CountsCurrent(st) && Enabled(st, Commit(p))
    ensures Effect(st.tables, st.procs[p]) == Answer(st.tables, st.procs[p].work)
  {
    hide Effect, Answer, SeatSafe, OneLive, SchedulesExist, ClassesMatch, Room, CanCommit;
    assert Sound(st.tables, st.procs[p]);
    CommitIsAtomic(st, p);
  }
}
