// What every run of enrollment transactions keeps.
module EnrollmentTheorems {
  import opened Common
  import opened Calendar
  import opened Enrollments

  // ---- Counting seats ----

  predicate HasStatus(t: Tables, id: Id, statuses: set<Status>) {
    Found(t, id) && t.enrollments[id].status in statuses
  }

  // Writing one row changes the seats of a schedule by that row alone.
  lemma SeatsAfterWrite(enrollments: map<Id, Enrollment>, id: Id, e: Enrollment, s: Id)
    ensures SeatSet(enrollments[id := e], s) == if HoldsSeat(e, s) then SeatSet(enrollments, s) + {id}
                                                else SeatSet(enrollments, s) - {id}
    ensures |SeatSet(enrollments[id := e], s)| <= |SeatSet(enrollments, s)| + 1
    ensures !HoldsSeat(e, s) || id in SeatSet(enrollments, s) ==>
        |SeatSet(enrollments[id := e], s)| <= |SeatSet(enrollments, s)|
    ensures HoldsSeat(e, s) && id !in SeatSet(enrollments, s) ==>
        |SeatSet(enrollments[id := e], s)| == |SeatSet(enrollments, s)| + 1
  {
    var before, after := SeatSet(enrollments, s), SeatSet(enrollments[id := e], s);
    assert after == if HoldsSeat(e, s) then before + {id} else before - {id};
    if HoldsSeat(e, s) && id in before {
      assert before + {id} == before;
    }
  }

  // What a single-row write must respect to keep the invariant.
  ghost predicate SeatAllowed(t: Tables, id: Id, e: Enrollment) {
    forall s :: s in t.schedules && HoldsSeat(e, s) ==>
        id in SeatSet(t.enrollments, s) || Seats(t, s) < t.schedules[s].capacity
  }

  lemma WriteKeepsSeats(t: Tables, id: Id, e: Enrollment)
    requires SeatSafe(t) && SeatAllowed(t, id, e)
    ensures SeatSafe(t.(enrollments := t.enrollments[id := e]))
  {
    forall s | s in t.schedules ensures |SeatSet(t.enrollments[id := e], s)| <= t.schedules[s].capacity {
      SeatsAfterWrite(t.enrollments, id, e, s);
      assert Seats(t, s) <= t.schedules[s].capacity;
    }
  }

  lemma TransferSeats(enrollments: map<Id, Enrollment>, class_: Id, source: Id, target: Id, s: Id)
    requires source != target && SeatSet(enrollments, target) == {}
    ensures var moved := Transferred(enrollments, class_, source, target);
            |SeatSet(moved, s)| <= |SeatSet(enrollments, if s == target then source else s)|
  {
    var moved := Transferred(enrollments, class_, source, target);
    var from := SeatSet(enrollments, if s == target then source else s);
    forall id | id in SeatSet(moved, s) ensures id in from {
      assert id !in SeatSet(enrollments, target);
    }
    Subset(SeatSet(moved, s), from);
  }

  lemma Subset(a: set<Id>, b: set<Id>)
    requires a <= b
    ensures |a| <= |b|
  {
    assert b == a + (b - a);
  }

  // ---- At most one live enrollment per student and class ----

  lemma WriteKeepsOneLive(t: Tables, id: Id, e: Enrollment)
    requires OneLive(t) && (Live(e) ==> !Duplicates(t, id, e))
    ensures OneLive(t.(enrollments := t.enrollments[id := e]))
  {
  }

  lemma ReplaceKeepsOneLive(t: Tables, source: Id, target: Id, capacity: int, effective: Day)
    requires OneLive(t) && source in t.schedules
    ensures OneLive(ReplaceRow(t, source, target, capacity, effective).value)
  {
    var u := ReplaceRow(t, source, target, capacity, effective).value;
    assert forall id :: id in t.enrollments <==> id in u.enrollments;
    assert forall id :: id in u.enrollments ==>
      (&& Live(u.enrollments[id]) == Live(t.enrollments[id])
       && u.enrollments[id].student == t.enrollments[id].student &&
           u.enrollments[id].class_ == t.enrollments[id].class_);
  }

  // The row an operation writes, or the one it leaves alone when it refuses.
  lemma StillLiveNoDuplicate(t: Tables, id: Id, e: Enrollment)
    requires OneLive(t) && id in t.enrollments && Live(t.enrollments[id])
    requires e.student == t.enrollments[id].student && e.class_ == t.enrollments[id].class_
    ensures !Duplicates(t, id, e)
  {
  }

  lemma ApplyKeepsOneLive(t: Tables, op: Op)
    requires OneLive(t)
    ensures OneLive(Apply(t, op))
  {
    if Answer(t, op).Ok? {
      match op
      case OpReplace(source, target, capacity, effective) =>
        ReplaceKeepsOneLive(t, source, target, capacity, effective);
      case OpReplaceForTutor(source, target, effective) =>
        ReplaceKeepsOneLive(t, source, target, t.schedules[source].capacity, effective);
      case OpRemoveSchedule(_) =>
      case OpGenerate(_) =>
      case OpEditSession(_, _, _) =>
      case OpSignup(id, student, class_, seat, today) => WriteKeepsOneLive(t, id, NewEnrollment(student, class_, seat));
      case _ =>
        var id := op.id;
        var e := Apply(t, op).enrollments[id];
        if Live(t.enrollments[id]) {
          StillLiveNoDuplicate(t, id, e);
        }
        WriteKeepsOneLive(t, id, e);
        assert Apply(t, op) == t.(enrollments := t.enrollments[id := e]);
    }
  }

  lemma {:induction false} NeverTwoLive(t: Tables, ops: seq<Op>)
    requires OneLive(t)
    ensures OneLive(Run(t, ops))
    decreases ops
  {
    if ops != [] {
      ApplyKeepsOneLive(t, ops[0]);
      NeverTwoLive(Apply(t, ops[0]), ops[1..]);
    }
  }

  // ---- Seat safety ----

  // Restoring is the one operation that takes a seat without counting.
  predicate RestoreHasSeat(t: Tables, id: Id) {
    id in t.enrollments && t.enrollments[id].schedule.Some? && t.enrollments[id].schedule.value in t.schedules ==>
      var s := t.enrollments[id].schedule.value;
      Seats(t, s) < t.schedules[s].capacity
  }

  lemma ReplaceKeepsSeats(t: Tables, source: Id, target: Id, capacity: int, effective: Day)
    requires SeatSafe(t) && SchedulesExist(t) && source in t.schedules && target !in t.schedules
    requires Seats(t, source) <= capacity
    ensures var u := ReplaceRow(t, source, target, capacity, effective).value; SeatSafe(u) && SchedulesExist(u)
  {
    var u := ReplaceRow(t, source, target, capacity, effective).value;
    assert SeatSet(t.enrollments, target) == {} by {
      forall id | id in t.enrollments ensures !HoldsSeat(t.enrollments[id], target) {
        assert t.enrollments[id].schedule.Some? ==> t.enrollments[id].schedule.value in t.schedules;
      }
    }
    forall s | s in u.schedules ensures Seats(u, s) <= u.schedules[s].capacity {
      TransferSeats(t.enrollments, t.schedules[source].class_, source, target, s);
      if s != target {
        assert Seats(t, s) <= t.schedules[s].capacity;
      }
    }
  }

  predicate WritesOneRow(op: Op) {
    !op.OpReplace? && !op.OpReplaceForTutor? && !op.OpRemoveSchedule? && !WritesNothing(op)
  }

  // Whatever row an operation writes, it takes a seat only where one was counted free.
  lemma WritesAllowedRow(t: Tables, op: Op)
    requires WritesOneRow(op) && Answer(t, op).Ok? && SchedulesExist(t)
    requires op.OpRestore? ==> RestoreHasSeat(t, op.id)
    ensures var u := Apply(t, op);
            && op.id in u.enrollments && u == t.(enrollments := t.enrollments[op.id := u.enrollments[op.id]])
            && SeatAllowed(t, op.id, u.enrollments[op.id])
            && (u.enrollments[op.id].schedule.Some? ==> u.enrollments[op.id].schedule.value in t.schedules)
  {
    hide Seats;
    var u := Apply(t, op);
    assert u.enrollments == t.enrollments[op.id := u.enrollments[op.id]];
    forall s | s in t.schedules && HoldsSeat(u.enrollments[op.id], s)
      ensures op.id in SeatSet(t.enrollments, s) || Seats(t, s) < t.schedules[s].capacity
    {
    }
  }

  lemma ApplyKeepsSeats(t: Tables, op: Op)
    requires Inv(t)
    requires op.OpRestore? ==> RestoreHasSeat(t, op.id)
    ensures SeatSafe(Apply(t, op)) && SchedulesExist(Apply(t, op))
  {
    if Answer(t, op).Ok? {
      match op
      case OpReplace(source, target, capacity, effective) => ReplaceKeepsSeats(t, source, target, capacity, effective);
      case OpReplaceForTutor(source, target, effective) =>
        ReplaceKeepsSeats(t, source, target, t.schedules[source].capacity, effective);
      case OpRemoveSchedule(row) =>
        var u := Apply(t, op);
        forall s | s in u.schedules ensures Seats(u, s) <= u.schedules[s].capacity {
          assert Seats(u, s) == Seats(t, s);
        }
      case OpGenerate(_) =>
      case OpEditSession(_, _, _) =>
      case _ => WriteKeepsAll(t, op);
    }
  }

  lemma WriteKeepsAll(t: Tables, op: Op)
    requires Inv(t) && WritesOneRow(op) && Answer(t, op).Ok?
    requires op.OpRestore? ==> RestoreHasSeat(t, op.id)
    ensures SeatSafe(Apply(t, op)) && SchedulesExist(Apply(t, op))
  {
    WritesAllowedRow(t, op);
    hide Answer, Apply;
    WriteKeepsSeats(t, op.id, Apply(t, op).enrollments[op.id]);
  }

  lemma ApplyKeepsInv(t: Tables, op: Op)
    requires Inv(t)
    requires op.OpRestore? ==> RestoreHasSeat(t, op.id)
    ensures Inv(Apply(t, op))
  {
    ApplyKeepsOneLive(t, op);
    ApplyKeepsSeats(t, op);
  }

  // ---- Exactly the runs that never overbook ----

  // Every restore of the run finds a free seat when it comes.
  predicate RestoresHaveSeat(t: Tables, ops: seq<Op>)
    decreases ops
  {
    ops == [] || ((ops[0].OpRestore? && Restore(t, ops[0].id).Ok? ==> RestoreHasSeat(t, ops[0].id))
                  && RestoresHaveSeat(Apply(t, ops[0]), ops[1..]))
  }

  lemma RestoreWithoutSeat(t: Tables, id: Id)
    requires Restore(t, id).Ok? && !RestoreHasSeat(t, id)
    ensures !SeatSafe(Restore(t, id).value)
  {
    hide Duplicates;
    var e := t.enrollments[id].(status := Pending, payment := PaymentPending);
    var s := e.schedule.value;
    SeatsAfterWrite(t.enrollments, id, e, s);
    assert Seats(Restore(t, id).value, s) == Seats(t, s) + 1;
  }

  // When nothing else is under way, a restore keeps every schedule within its capacity exactly
  // when the enrollment has no schedule or its schedule has a free seat.
  lemma RestoreSafeExactly(t: Tables, id: Id)
    requires Inv(t) && Restore(t, id).Ok?
    ensures Inv(Restore(t, id).value) <==> RestoreHasSeat(t, id)
  {
    hide Restore, RestoreHasSeat, OneLive, SeatSafe, SchedulesExist;
    if RestoreHasSeat(t, id) {
      ApplyKeepsInv(t, OpRestore(id));
    } else {
      RestoreWithoutSeat(t, id);
    }
  }

  lemma StepSafeExactly(t: Tables, op: Op)
    requires Inv(t)
    ensures Inv(Apply(t, op)) <==> (op.OpRestore? && Restore(t, op.id).Ok? ==> RestoreHasSeat(t, op.id))
  {
    hide Inv, RestoreHasSeat, Restore;
    if op.OpRestore? && Restore(t, op.id).Ok? {
      RestoreSafeExactly(t, op.id);
    } else if !op.OpRestore? {
      ApplyKeepsInv(t, op);
    }
  }

  ghost predicate AlwaysInv(t: Tables, ops: seq<Op>) {
    forall n :: 0 <= n <= |ops| ==> Inv(Run(t, ops[..n]))
  }

  lemma AlwaysUnrolls(t: Tables, ops: seq<Op>)
    requires ops != []
    ensures AlwaysInv(t, ops) <==> Inv(t) && AlwaysInv(Apply(t, ops[0]), ops[1..])
  {
    hide Inv, Apply;
    var u, rest := Apply(t, ops[0]), ops[1..];
    assert Run(t, ops[..0]) == t;
    forall n | 0 <= n <= |rest| ensures Run(t, ops[..n + 1]) == Run(u, rest[..n]) {
      assert ops[..n + 1][0] == ops[0] && ops[..n + 1][1..] == rest[..n];
    }
    if Inv(t) && AlwaysInv(u, rest) {
      forall n | 0 <= n <= |ops| ensures Inv(Run(t, ops[..n])) {
        if n > 0 {
          assert Run(t, ops[..n]) == Run(u, rest[..n - 1]);
        }
      }
    }
    if AlwaysInv(t, ops) {
      forall n | 0 <= n <= |rest| ensures Inv(Run(u, rest[..n])) {
        assert Inv(Run(t, ops[..n + 1]));
      }
    }
  }

  // A run of transactions never overbooks a schedule, at any moment, exactly when each of its
  // restores finds a free seat.
  lemma {:induction false} NeverOverbookedExactly(t: Tables, ops: seq<Op>)
    requires Inv(t)
    ensures AlwaysInv(t, ops) <==> RestoresHaveSeat(t, ops)
    decreases ops
  {
    hide Inv, Apply, RestoreHasSeat, Restore, AlwaysInv;
    if ops == [] {
      AlwaysNothing(t);
    } else {
      AlwaysUnrolls(t, ops);
      StepSafeExactly(t, ops[0]);
      if Inv(Apply(t, ops[0])) {
        NeverOverbookedExactly(Apply(t, ops[0]), ops[1..]);
      } else if AlwaysInv(Apply(t, ops[0]), ops[1..]) {
        AlwaysFirst(Apply(t, ops[0]), ops[1..]);
      }
    }
  }

  lemma AlwaysNothing(t: Tables)
    requires Inv(t)
    ensures AlwaysInv(t, [])
  {
  }

  lemma AlwaysFirst(t: Tables, ops: seq<Op>)
    requires AlwaysInv(t, ops)
    ensures Inv(t)
  {
    hide Inv;
    assert Run(t, ops[..0]) == t;
  }

  // An enrollment with no schedule of its own, as a private purchase creates it.
  predicate Unseated(t: Tables, id: Id) {
    id in t.enrollments ==> t.enrollments[id].schedule.None?
  }

  predicate NeverSeats(op: Op, id: Id) {
    !(op.OpAssign? && op.id == id) && !(op.OpSignup? && op.id == id && op.seat.Some?)
  }

  // Every restored enrollment has no schedule now and is given none by the run.
  ghost predicate RestoresUnseated(t: Tables, ops: seq<Op>) {
    forall k :: 0 <= k < |ops| && ops[k].OpRestore? ==>
      Unseated(t, ops[k].id) && forall j :: 0 <= j < |ops| ==> NeverSeats(ops[j], ops[k].id)
  }

  lemma StepKeepsUnseated(t: Tables, op: Op, id: Id)
    requires Unseated(t, id) && NeverSeats(op, id)
    ensures Unseated(Apply(t, op), id)
  {
  }

  // Restoring enrollments that never have a schedule, as the private path does, is such a run.
  lemma {:induction false} UnseatedHaveSeat(t: Tables, ops: seq<Op>)
    requires RestoresUnseated(t, ops)
    ensures RestoresHaveSeat(t, ops)
    decreases ops
  {
    if ops != [] {
      var u, rest := Apply(t, ops[0]), ops[1..];
      assert ops[0].OpRestore? ==> Unseated(t, ops[0].id);
      hide Apply;
      forall k | 0 <= k < |rest| && rest[k].OpRestore?
        ensures Unseated(u, rest[k].id) && forall j :: 0 <= j < |rest| ==> NeverSeats(rest[j], rest[k].id)
      {
        assert rest[k] == ops[k + 1];
        assert forall j :: 0 <= j < |rest| ==> rest[j] == ops[j + 1];
        assert NeverSeats(ops[0], ops[k + 1].id);
        StepKeepsUnseated(t, ops[0], rest[k].id);
      }
      UnseatedHaveSeat(u, rest);
    }
  }

  // ---- Seats are conserved ----

  lemma ApplyKeepsClasses(t: Tables, op: Op)
    requires ClassesMatch(t) && SchedulesExist(t)
    ensures ClassesMatch(Apply(t, op))
  {
    hide Seats, Duplicates;
  }

  lemma ApplyKeepsSchedules(t: Tables, op: Op)
    requires SchedulesExist(t)
    ensures SchedulesExist(Apply(t, op))
  {
    hide Seats, Duplicates;
  }

  lemma {:induction false} ClassesAlwaysMatch(t: Tables, ops: seq<Op>)
    requires SchedulesExist(t) && ClassesMatch(t)
    ensures SchedulesExist(Run(t, ops)) && ClassesMatch(Run(t, ops))
    decreases ops
  {
    hide SchedulesExist, ClassesMatch, Apply;
    if ops != [] {
      ApplyKeepsClasses(t, ops[0]);
      ApplyKeepsSchedules(t, ops[0]);
      ClassesAlwaysMatch(Apply(t, ops[0]), ops[1..]);
    }
  }

  function Holds(t: Tables, id: Id, schedule: Id): int {
    if id in t.enrollments && HoldsSeat(t.enrollments[id], schedule) then 1 else 0
  }

  lemma OneRowWritten(t: Tables, op: Op)
    requires WritesOneRow(op) && Answer(t, op).Ok?
    ensures var u := Apply(t, op);
            op.id in u.enrollments && u.enrollments == t.enrollments[op.id := u.enrollments[op.id]]
  {
    hide Seats, Duplicates, CheckSignup, CheckResume, CheckAssign;
  }

  lemma SeatsOfWrite(enrollments: map<Id, Enrollment>, id: Id, e: Enrollment, s: Id)
    ensures |SeatSet(enrollments[id := e], s)| ==
            |SeatSet(enrollments, s)| + (if HoldsSeat(e, s) then 1 else 0)
            - (if id in enrollments && HoldsSeat(enrollments[id], s) then 1 else 0)
  {
    var before := SeatSet(enrollments, s);
    SeatsAfterWrite(enrollments, id, e, s);
    if !HoldsSeat(e, s) && id in before {
      assert before == (before - {id}) + {id};
    } else if !HoldsSeat(e, s) {
      assert before - {id} == before;
    } else if id in before {
      assert before + {id} == before;
    }
  }

  // A transaction on one enrollment changes the seats of a schedule by that enrollment's own.
  lemma SeatsFollowTheRow(t: Tables, op: Op, schedule: Id)
    requires WritesOneRow(op)
    ensures Seats(Apply(t, op), schedule) ==
            Seats(t, schedule) + Holds(Apply(t, op), op.id, schedule) - Holds(t, op.id, schedule)
  {
    if Answer(t, op).Ok? {
      OneRowWritten(t, op);
      hide Answer, Apply, HoldsSeat;
      SeatsOfWrite(t.enrollments, op.id, Apply(t, op).enrollments[op.id], schedule);
    }
  }

  // A schedule change moves every seat of the old row to the new one and no other.
  lemma ReplaceMovesEverySeat(t: Tables, op: Op, schedule: Id)
    requires Inv(t) && ClassesMatch(t) && (op.OpReplace? || op.OpReplaceForTutor?) && Answer(t, op).Ok?
    ensures var u := Apply(t, op);
            Seats(u, schedule) == if schedule == op.target then Seats(t, op.source)
                                  else if schedule == op.source then 0
                                  else Seats(t, schedule)
  {
    hide Seats, OneLive, SeatSafe;
    var class_ := t.schedules[op.source].class_;
    var moved := Transferred(t.enrollments, class_, op.source, op.target);
    assert SeatSet(t.enrollments, op.target) == {} by {
      forall id | id in t.enrollments ensures !HoldsSeat(t.enrollments[id], op.target) {
        assert t.enrollments[id].schedule.Some? ==> t.enrollments[id].schedule.value in t.schedules;
      }
    }
    MovedSeats(t, class_, op.source, op.target, schedule);
    SeatsAre(Apply(t, op), schedule);
    SeatsAre(t, schedule);
    SeatsAre(t, op.source);
  }

  lemma SeatsAre(t: Tables, schedule: Id)
    ensures Seats(t, schedule) == |SeatSet(t.enrollments, schedule)|
  {
  }

  lemma MovedSeats(t: Tables, class_: Id, source: Id, target: Id, schedule: Id)
    requires source in t.schedules && source != target && SeatSet(t.enrollments, target) == {} && ClassesMatch(t)
    requires t.schedules[source].class_ == class_
    ensures SeatSet(Transferred(t.enrollments, class_, source, target), schedule) ==
            if schedule == target then SeatSet(t.enrollments, source)
            else if schedule == source then {}
            else SeatSet(t.enrollments, schedule)
  {
    var moved := Transferred(t.enrollments, class_, source, target);
    forall id | id in t.enrollments
      ensures HoldsSeat(moved[id], schedule) <==>
              HoldsSeat(t.enrollments[id], if schedule == target then source else schedule) && schedule != source
    {
      assert id !in SeatSet(t.enrollments, target);
    }
  }

  predicate FreesSeat(op: Op) {
    op.OpRelease? || op.OpSuspend? || op.OpEnd? || op.OpCancel? || op.OpDropRejected?
  }

  // Payment takes and frees no seat; a transition that frees one frees the enrollment's own,
  // and a late release or refusal of a started enrollment frees none.
  lemma SeatsFreed(t: Tables, op: Op, schedule: Id)
    requires (op.OpActivate? || FreesSeat(op)) && Answer(t, op).Ok?
    ensures var late := (op.OpRelease? || op.OpDropRejected?) && !HasStatus(t, op.id, {Pending});
            Seats(Apply(t, op), schedule) ==
            Seats(t, schedule) - (if op.OpActivate? || late then 0 else Holds(t, op.id, schedule))
  {
    SeatsFollowTheRow(t, op, schedule);
    hide Seats;
  }

  // The seat freed is there for the next student: an open place in the class and schedule is
  // given to anyone who has none in the class yet.
  lemma FreedSeatIsTaken(t: Tables, op: Op, schedule: Id, newId: Id, student: Id, today: Day)
    requires Inv(t) && FreesSeat(op) && Answer(t, op).Ok? && Holds(t, op.id, schedule) == 1
    requires Holds(Apply(t, op), op.id, schedule) == 0
    requires ScheduleFound(t, schedule) && !Ended(t.schedules[schedule], today) && newId !in t.enrollments
    requires var c := t.schedules[schedule].class_;
             && c in t.classes && !t.classes[c].deleted && t.classes[c].published && t.classes[c].open
             && !Duplicates(Apply(t, op), newId, NewEnrollment(student, c, Some(schedule)))
    ensures Signup(Apply(t, op), newId, NewEnrollment(student, t.schedules[schedule].class_, Some(schedule)), today).Ok?
  {
    SeatsFollowTheRow(t, op, schedule);
    OneRowWritten(t, op);
    hide Seats, Duplicates, OneLive, SchedulesExist;
    assert Seats(t, schedule) <= t.schedules[schedule].capacity;
    OtherTablesKept(t, op);
    hide Apply, Answer;
  }

  lemma OtherTablesKept(t: Tables, op: Op)
    requires FreesSeat(op)
    ensures Apply(t, op).classes == t.classes && Apply(t, op).schedules == t.schedules
    ensures Apply(t, op).enrollments.Keys == t.enrollments.Keys
  {
  }

  // The first of a payment and a failure notification decides: after an activation nothing
  // late takes the place away, and after a release nothing late gives it back.
  lemma FirstNotificationWins(t: Tables, id: Id, payment: PaymentStatus)
    requires Found(t, id) && t.enrollments[id].status == Pending
    ensures var active := Activate(t, id).value;
            && Release(active, id) == Ok(active) && DropRejected(active, id, payment) == Ok(active)
            && CancelPending(active, id).Err? && HasStatus(active, id, {Active})
    ensures var released := Release(t, id).value;
            && Activate(released, id).Err? && Suspend(released, id).Err? && CancelPending(released, id).Err?
            && End(released, id) == Ok(released) && HasStatus(released, id, {Dropped})
  {
  }

  // A private enrollment that was assigned a schedule, refused by billing and restored
  // after someone else was assigned the seat overbooks the schedule.
  const PRIVATE_CLASS := ClassRow(false, true, true, false)
  const ONE_SEAT := Tables(map[5 := PRIVATE_CLASS], map[9 := ScheduleRow(5, 1, None, false, None)], map[])
  const FIRST := NewEnrollment(1, 5, None)
  const SECOND := NewEnrollment(2, 5, None)
  const REFUSED := FIRST.(schedule := Some(9), status := Dropped, payment := PlatformFeeRejected)

  // The first student signs up, is assigned the seat and refused; the second signs up.
  function Refusal(rest: seq<Op>): seq<Op> {
    [OpSignup(1, 1, 5, None, 0)]
    + ([OpAssign(1, 9, 0)] + ([OpDropRejected(1, PlatformFeeRejected)] + ([OpSignup(2, 2, 5, None, 0)] + rest)))
  }

  function RefusedBeside(second: Enrollment): Tables {
    ONE_SEAT.(enrollments := map[1 := REFUSED, 2 := second])
  }

  lemma AfterRefusal(rest: seq<Op>)
    ensures Inv(ONE_SEAT) && Run(ONE_SEAT, Refusal(rest)) == Run(RefusedBeside(SECOND), rest)
  {
    var t1 := ONE_SEAT.(enrollments := map[1 := FIRST]);
    var t2 := ONE_SEAT.(enrollments := map[1 := FIRST.(schedule := Some(9))]);
    var t3 := ONE_SEAT.(enrollments := map[1 := REFUSED]);
    assert SeatSet(ONE_SEAT.enrollments, 9) == {};
    assert SeatSet(t1.enrollments, 9) == {};
    assert Apply(ONE_SEAT, OpSignup(1, 1, 5, None, 0)) == t1;
    assert Apply(t1, OpAssign(1, 9, 0)) == t2;
    assert Apply(t2, OpDropRejected(1, PlatformFeeRejected)) == t3;
    assert Apply(t3, OpSignup(2, 2, 5, None, 0)) == RefusedBeside(SECOND);
    hide Apply, Run;
    Unroll(ONE_SEAT, OpSignup(1, 1, 5, None, 0),
           [OpAssign(1, 9, 0)] + ([OpDropRejected(1, PlatformFeeRejected)] + ([OpSignup(2, 2, 5, None, 0)] + rest)));
    Unroll(t1, OpAssign(1, 9, 0), [OpDropRejected(1, PlatformFeeRejected)] + ([OpSignup(2, 2, 5, None, 0)] + rest));
    Unroll(t2, OpDropRejected(1, PlatformFeeRejected), [OpSignup(2, 2, 5, None, 0)] + rest);
    Unroll(t3, OpSignup(2, 2, 5, None, 0), rest);
  }

  lemma RestoreCanOverbook()
    ensures Inv(ONE_SEAT) && !SeatSafe(Run(ONE_SEAT, Refusal([OpAssign(2, 9, 0), OpRestore(1)])))
  {
    hide Refusal;
    AfterRefusal([OpAssign(2, 9, 0), OpRestore(1)]);
    SeatTakenThenRestored();
  }

  lemma SeatTakenThenRestored()
    ensures !SeatSafe(Run(RefusedBeside(SECOND), [OpAssign(2, 9, 0), OpRestore(1)]))
  {
    var t4 := RefusedBeside(SECOND);
    var t5 := RefusedBeside(SECOND.(schedule := Some(9)));
    var t6 := t5.(enrollments := t5.enrollments[1 := REFUSED.(status := Pending, payment := PaymentPending)]);
    assert SeatSet(t4.enrollments, 9) == {};
    assert Apply(t4, OpAssign(2, 9, 0)) == t5;
    assert Apply(t5, OpRestore(1)) == t6;
    Unroll(t4, OpAssign(2, 9, 0), [OpRestore(1)]);
    Unroll(t5, OpRestore(1), []);
    assert SeatSet(t6.enrollments, 9) == {1, 2};
    assert Seats(t6, 9) == 2;
  }

  lemma Unroll(t: Tables, op: Op, rest: seq<Op>)
    ensures Run(t, [op] + rest) == Run(Apply(t, op), rest)
  {
    assert ([op] + rest)[1..] == rest;
  }

  // ---- The whole-row save after the billing call ----

  // When nothing else is under way, the save of an earlier copy keeps the schedules within
  // capacity exactly when a seat is free if it takes one again.
  lemma StaleSaveSafeExactly(t: Tables, id: Id, earlier: Enrollment, transaction: Id, checkout: string)
    requires Inv(t) && id in t.enrollments && earlier.student == t.enrollments[id].student
    requires earlier.class_ == t.enrollments[id].class_
    requires earlier.schedule.Some? ==> earlier.schedule.value in t.schedules
    requires StaleSave(t, id, earlier, transaction, checkout).Ok?
    ensures Inv(StaleSave(t, id, earlier, transaction, checkout).value) <==>
            (Live(earlier) && earlier.schedule.Some? && !HoldsSeat(t.enrollments[id], earlier.schedule.value) ==>
              Seats(t, earlier.schedule.value) < t.schedules[earlier.schedule.value].capacity)
  {
    var e := WithInvoice(earlier, transaction, checkout);
    var u := StaleSave(t, id, earlier, transaction, checkout).value;
    if SeatAllowed(t, id, e) {
      WriteKeepsSeats(t, id, e);
      WriteKeepsOneLive(t, id, e);
    } else {
      var s := earlier.schedule.value;
      SeatsAfterWrite(t.enrollments, id, e, s);
      assert Seats(u, s) == Seats(t, s) + 1;
    }
  }

  // A successful save leaves the committed status alone exactly when the run since the read
  // did; and a late release then drops an enrollment that run had activated exactly when the
  // copy was read pending, or dropped before a restore.
  lemma StaleSaveKeepsStatusExactly(t: Tables, ops: seq<Op>, id: Id, transaction: Id, checkout: string)
    requires Found(t, id) && Found(Run(t, ops), id)
    requires StaleSave(Run(t, ops), id, t.enrollments[id], transaction, checkout).Ok?
    ensures var now := Run(t, ops);
            var saved := StaleSave(now, id, t.enrollments[id], transaction, checkout).value;
            && (saved.enrollments[id].status == now.enrollments[id].status <==>
                HasStatus(now, id, {t.enrollments[id].status}))
            && (HasStatus(now, id, {Active}) ==>
                  (Release(saved, id).Ok? && HasStatus(Release(saved, id).value, id, {Dropped})
                   <==> HasStatus(t, id, {Pending, Dropped})))
  {
    hide Run;
  }

  // The transitions that take an enrollment out of pending.
  predicate LeavesPending(op: Op, id: Id) {
    op == OpActivate(id) || op == OpRelease(id) || op == OpCancel(id) || (op.OpDropRejected? && op.id == id)
  }

  lemma {:induction false} NeverPendingAgain(t: Tables, ops: seq<Op>, id: Id)
    requires Found(t, id) && t.enrollments[id].status != Pending
    requires forall k :: 0 <= k < |ops| ==> ops[k] != OpRestore(id)
    ensures Found(Run(t, ops), id) && Run(t, ops).enrollments[id].status != Pending
    decreases ops
  {
    if ops != [] {
      assert forall k :: 0 <= k < |ops[1..]| ==> ops[1..][k] == ops[k + 1];
      NeverPendingAgain(Apply(t, ops[0]), ops[1..], id);
    }
  }

  lemma {:induction false} PendingUntilMoved(t: Tables, ops: seq<Op>, id: Id)
    requires HasStatus(t, id, {Pending}) && forall k :: 0 <= k < |ops| ==> ops[k] != OpRestore(id)
    ensures HasStatus(Run(t, ops), id, {Pending}) <==> forall k :: 0 <= k < |ops| ==> !LeavesPending(ops[k], id)
    decreases ops
  {
    if ops != [] {
      assert forall k :: 0 <= k < |ops[1..]| ==> ops[1..][k] == ops[k + 1];
      if LeavesPending(ops[0], id) {
        NeverPendingAgain(Apply(t, ops[0]), ops[1..], id);
      } else {
        PendingUntilMoved(Apply(t, ops[0]), ops[1..], id);
        assert forall k :: 1 <= k < |ops| ==> ops[k] == ops[1..][k - 1];
      }
    }
  }

  // The save of a copy read pending leaves what was committed exactly when no activation,
  // release, cancellation or refusal of the enrollment came between the read and the save.
  lemma StaleSaveOfPendingExactly(t: Tables, ops: seq<Op>, id: Id, transaction: Id, checkout: string)
    requires HasStatus(t, id, {Pending}) && forall k :: 0 <= k < |ops| ==> ops[k] != OpRestore(id)
    requires Found(Run(t, ops), id) && StaleSave(Run(t, ops), id, t.enrollments[id], transaction, checkout).Ok?
    ensures var now := Run(t, ops);
            var saved := StaleSave(now, id, t.enrollments[id], transaction, checkout).value;
            saved.enrollments[id].status == now.enrollments[id].status <==>
            forall k :: 0 <= k < |ops| ==> !LeavesPending(ops[k], id)
  {
    hide Run;
    PendingUntilMoved(t, ops, id);
  }

  // The save is refused exactly when the copy is live and the student took another place in
  // the class meanwhile.
  lemma StaleSaveRefusedExactly(t: Tables, id: Id, earlier: Enrollment, transaction: Id, checkout: string)
    ensures StaleSave(t, id, earlier, transaction, checkout).Err? <==> Live(earlier) && Duplicates(t, id, earlier)
  {
    assert Duplicates(t, id, WithInvoice(earlier, transaction, checkout)) == Duplicates(t, id, earlier);
  }

  // Activation committed between the invoice and the save is lost, and a late failure
  // notification then drops a paid enrollment.
  lemma StaleSaveLosesActivation(t: Tables, id: Id, transaction: Id, checkout: string)
    requires OneLive(t) && Found(t, id) && t.enrollments[id].status == Pending
    ensures var activated := Activate(t, id).value;
            var saved := StaleSave(activated, id, t.enrollments[id], transaction, checkout);
            && activated.enrollments[id].status == Active
            && saved.Ok?
            && Release(saved.value, id).Ok?
            && Release(saved.value, id).value.enrollments[id].status == Dropped
  {
    ApplyKeepsOneLive(t, OpActivate(id));
    var activated := Activate(t, id).value;
    StillLiveNoDuplicate(activated, id, WithInvoice(t.enrollments[id], transaction, checkout));
  }

  // ---- The life cycle over whole runs ----

  lemma {:induction false} CompletedIsFinal(t: Tables, ops: seq<Op>, id: Id)
    requires HasStatus(t, id, {Completed})
    ensures HasStatus(Run(t, ops), id, {Completed})
    decreases ops
  {
    if ops != [] {
      CompletedIsFinal(Apply(t, ops[0]), ops[1..], id);
    }
  }

  // A dropped enrollment that was not refused for the platform fee never comes back.
  lemma {:induction false} DroppedIsFinal(t: Tables, ops: seq<Op>, id: Id)
    requires HasStatus(t, id, {Dropped})
    requires t.enrollments[id].payment != PlatformFeeRejected
             || (forall k :: 0 <= k < |ops| ==> ops[k] != OpRestore(id))
    ensures HasStatus(Run(t, ops), id, {Dropped})
    decreases ops
  {
    if ops != [] {
      assert ops[0] in ops;
      assert forall k :: 0 <= k < |ops[1..]| ==> ops[1..][k] == ops[k + 1];
      DroppedIsFinal(Apply(t, ops[0]), ops[1..], id);
    }
  }

  // A started enrollment is lost only by ending it.
  lemma {:induction false} OnlyEndStops(t: Tables, ops: seq<Op>, id: Id)
    requires HasStatus(t, id, {Active, Suspended})
    requires forall k :: 0 <= k < |ops| ==> ops[k] != OpEnd(id)
    ensures HasStatus(Run(t, ops), id, {Active, Suspended})
    decreases ops
  {
    if ops != [] {
      assert forall k :: 0 <= k < |ops[1..]| ==> ops[1..][k] == ops[k + 1];
      OnlyEndStops(Apply(t, ops[0]), ops[1..], id);
    }
  }

  predicate Notification(op: Op) {
    op.OpActivate? || op.OpRelease? || op.OpSuspend? || op.OpResume? || op.OpEnd?
  }

  // Repeating a notification is answered the same and changes nothing.
  lemma RepeatChangesNothing(t: Tables, op: Op)
    requires Notification(op) && Answer(t, op).Ok?
    ensures Answer(Apply(t, op), op) == Ok(Apply(t, op))
  {
  }

  // Suspending and resuming at once undoes itself exactly when the schedule still accepts
  // the enrollment: the seat given up is free and nothing else holds the student's place.
  lemma SuspendResumeUndone(t: Tables, id: Id, today: Day)
    requires Inv(t) && HasStatus(t, id, {Active})
    ensures Resume(Suspend(t, id).value, id, today) == Ok(t) <==>
            (t.enrollments[id].schedule.Some? ==>
              var s := t.enrollments[id].schedule.value;
              ScheduleFound(t, s) && t.schedules[s].class_ == t.enrollments[id].class_ && !Ended(t.schedules[s], today))
  {
    var e, u := t.enrollments[id], Suspend(t, id).value;
    var parked := e.(status := Suspended);
    StillLiveNoDuplicate(t, id, e);
    assert !Duplicates(u, id, parked);
    if e.schedule.Some? {
      var s := e.schedule.value;
      assert HoldsSeat(e, s) && id in SeatSet(t.enrollments, s);
      assert SeatSet(u.enrollments, s) == SeatSet(t.enrollments, s) - {id} by {
        SeatsAfterWrite(t.enrollments, id, parked, s);
      }
      assert Seats(u, s) == Seats(t, s) - 1;
      assert Seats(t, s) <= t.schedules[s].capacity;
    }
    assert u.enrollments[id := e] == t.enrollments;
  }
}
