// The enrollment transactions as methods over the tables they update in place. Each is
// proved to do exactly what Enrollments says of it.
module EnrollmentService {
  import opened Common
  import opened Calendar
  import E = Enrollments
  import T = EnrollmentTheorems

  // What a transaction answered, next to what it left behind.
  ghost predicate Did(before: E.Tables, error: Option<E.Error>, after: E.Tables, expected: Result<E.Tables, E.Error>) {
    if error.None? then expected == Ok(after) else expected == Err(error.value) && after == before
  }

  // Nothing but the status of one enrollment changed, and it is this now.
  ghost predicate OnlyStatus(before: E.Tables, after: E.Tables, id: Id, status: E.Status) {
    && after.classes == before.classes && after.schedules == before.schedules &&
        after.enrollments.Keys == before.enrollments.Keys
    && (forall other :: other in before.enrollments && other != id ==>
        after.enrollments[other] == before.enrollments[other])
    && id in before.enrollments && after.enrollments[id] == before.enrollments[id].(status := status)
  }

  // Every schedule has the seats it had, less the one the enrollment gave up.
  ghost predicate SeatsLess(before: E.Tables, after: E.Tables, id: Id, gaveUp: bool) {
    forall s :: E.Seats(after, s) == E.Seats(before, s) - (if gaveUp then T.Holds(before, id, s) else 0)
  }

  lemma SeatsFreedAll(t: E.Tables, op: E.Op)
    requires (op.OpActivate? || T.FreesSeat(op)) && E.Answer(t, op).Ok?
    ensures var late := (op.OpRelease? || op.OpDropRejected?) && !T.HasStatus(t, op.id, {E.Pending});
            SeatsLess(t, E.Apply(t, op), op.id, !op.OpActivate? && !late)
  {
    forall s ensures E.Seats(E.Apply(t, op), s) == E.Seats(t, s)
      - (if op.OpActivate? || ((op.OpRelease? || op.OpDropRejected?) && !T.HasStatus(t, op.id, {E.Pending})) then 0
          else T.Holds(t, op.id, s))
    {
      T.SeatsFreed(t, op, s);
    }
  }

  class EnrollmentUsecase {
    var classes: map<Id, E.ClassRow>
    var schedules: map<Id, E.ScheduleRow>
    var enrollments: map<Id, E.Enrollment>

    ghost function State(): E.Tables
      reads this
    {
      E.Tables(classes, schedules, enrollments)
    }

    ghost function Holding(ids: set<Id>, schedule: Id): set<Id>
      requires ids <= enrollments.Keys
      reads this
    {
      set id | id in ids && E.HoldsSeat(enrollments[id], schedule)
    }

    // SELECT count(*) of the pending and active rows on a schedule.
    method CountSeats(schedule: Id) returns (count: nat)
      ensures count == E.Seats(State(), schedule)
    {
      var ids := enrollments.Keys;
      var seen: set<Id> := {};
      count := 0;
      while ids != {}
        invariant ids !! seen && ids + seen == enrollments.Keys
        invariant count == |Holding(seen, schedule)|
        decreases |ids|
      {
        var id :| id in ids;
        ids := ids - {id};
        assert Holding(seen + {id}, schedule) ==
               Holding(seen, schedule) + (if E.HoldsSeat(enrollments[id], schedule) then {id} else {});
        seen := seen + {id};
        if E.HoldsSeat(enrollments[id], schedule) { count := count + 1; }
      }
      assert Holding(seen, schedule) == E.SeatSet(enrollments, schedule);
    }

    // SELECT count(*) > 0 of the student's other live rows in the class.
    method RejectLive(id: Id, e: E.Enrollment) returns (duplicate: bool)
      ensures duplicate <==> E.Duplicates(State(), id, e)
    {
      var ids := enrollments.Keys;
      while ids != {}
        invariant ids <= enrollments.Keys
        invariant forall i :: i in enrollments && i !in ids && i != id && E.Live(enrollments[i]) ==>
          !(enrollments[i].student == e.student && enrollments[i].class_ == e.class_)
        decreases |ids|
      {
        var i :| i in ids;
        ids := ids - {i};
        if i != id && E.Live(enrollments[i]) && enrollments[i].student == e.student
           && enrollments[i].class_ == e.class_ {
          return true;
        }
      }
      duplicate := false;
    }

    method CreateIfCapacityAvailable(id: Id, student: Id, class_: Id, seat: Option<Id>,
                                     today: Day) returns (error: Option<E.Error>)
      modifies this`enrollments
      ensures Did(old(State()), error, State(),
                  E.Signup(old(State()), id, E.NewEnrollment(student, class_, seat), today))
    {
      hide E.Seats, E.Duplicates;
      var e := E.Enrollment(student, class_, seat, E.Pending, E.PaymentPending, None, None, false);
      if id in enrollments { return Some(E.DuplicateKey); }
      if class_ !in classes || classes[class_].deleted { return Some(E.ClassNotFound); }
      var offer := classes[class_];
      if !offer.published || !offer.open { return Some(E.ClassNotEnrollable); }
      if seat.Some? {
        var s := seat.value;
        if s !in schedules || schedules[s].deleted || schedules[s].class_ != class_ {
          return Some(E.ScheduleClassMismatch);
        }
        if E.Ended(schedules[s], today) { return Some(E.ScheduleEnded); }
        var duplicate := RejectLive(id, e);
        if duplicate { return Some(E.DuplicateEnrollment); }
        var count := CountSeats(s);
        if count >= schedules[s].capacity { return Some(E.ScheduleFull); }
      } else if offer.isGroup {
        return Some(E.ScheduleRequired);
      } else {
        var duplicate := RejectLive(id, e);
        if duplicate { return Some(E.DuplicateEnrollment); }
      }
      enrollments := enrollments[id := e];
      error := None;
    }

    method ResumeUnderCapacity(id: Id, today: Day) returns (error: Option<E.Error>)
      requires id in enrollments && !enrollments[id].deleted && enrollments[id].status == E.Suspended
      modifies this`enrollments
      ensures Did(old(State()), error, State(), E.Resume(old(State()), id, today))
    {
      hide E.Seats, E.Duplicates;
      var e := enrollments[id];
      if e.schedule.Some? {
        var s := e.schedule.value;
        if s !in schedules || schedules[s].deleted || schedules[s].class_ != e.class_ {
          return Some(E.SuspendedConflict);
        }
        if E.Ended(schedules[s], today) { return Some(E.SuspendedConflict); }
        var count := CountSeats(s);
        if count >= schedules[s].capacity { return Some(E.ScheduleFull); }
      }
      var duplicate := RejectLive(id, e);
      if duplicate { return Some(E.SuspendedConflict); }
      enrollments := enrollments[id := e.(status := E.Active)];
      error := None;
    }

    method ResumeEnrollment(id: Id, today: Day) returns (error: Option<E.Error>)
      modifies this`enrollments
      ensures Did(old(State()), error, State(), E.Resume(old(State()), id, today))
    {
      if id !in enrollments || enrollments[id].deleted { return Some(E.EnrollmentNotFound); }
      if enrollments[id].status == E.Suspended {
        error := ResumeUnderCapacity(id, today);
        return;
      }
      error := if enrollments[id].status == E.Active then None else Some(E.InvalidTransition);
    }

    method AssignSchedule(id: Id, schedule: Id, today: Day) returns (error: Option<E.Error>)
      modifies this`enrollments
      ensures Did(old(State()), error, State(), E.Assign(old(State()), id, schedule, today))
    {
      hide E.Seats;
      if id !in enrollments || enrollments[id].deleted { return Some(E.EnrollmentNotFound); }
      var e := enrollments[id];
      if e.status != E.Pending || e.schedule.Some? { return Some(E.InvalidTransition); }
      if schedule !in schedules || schedules[schedule].deleted { return Some(E.ScheduleNotFound); }
      if schedules[schedule].class_ != e.class_ { return Some(E.ScheduleClassMismatch); }
      if E.Ended(schedules[schedule], today) { return Some(E.ScheduleEnded); }
      var count := CountSeats(schedule);
      if count >= schedules[schedule].capacity { return Some(E.ScheduleFull); }
      enrollments := enrollments[id := e.(schedule := Some(schedule))];
      error := None;
    }

    // UPDATE enrollments SET schedule_id for the live rows of the old schedule.
    method TransferSchedule(class_: Id, source: Id, target: Id)
      modifies this`enrollments
      ensures enrollments == E.Transferred(old(enrollments), class_, source, target)
    {
      var ids := enrollments.Keys;
      ghost var before := enrollments;
      while ids != {}
        invariant ids <= before.Keys && enrollments.Keys == before.Keys
        invariant forall i :: i in ids ==> enrollments[i] == before[i]
        invariant forall i :: i in before && i !in ids ==>
            enrollments[i] == E.Transferred(before, class_, source, target)[i]
        decreases |ids|
      {
        var i :| i in ids;
        ids := ids - {i};
        if E.HoldsSeat(enrollments[i], source) && enrollments[i].class_ == class_ {
          enrollments := enrollments[i := enrollments[i].(schedule := Some(target))];
        }
      }
      assert enrollments == E.Transferred(before, class_, source, target);
    }

    // The seat side of a permanent schedule change.
    method ReplaceSchedule(source: Id, target: Id, capacity: int, effective: Day) returns (error: Option<E.Error>)
      modifies this`schedules, this`enrollments
      ensures Did(old(State()), error, State(), E.Replace(old(State()), source, target, capacity, effective))
    {
      hide E.Seats, E.Transferred;
      if source !in schedules || schedules[source].deleted { return Some(E.ScheduleNotFound); }
      var row := schedules[source];
      var occupied := CountSeats(source);
      if occupied > capacity { return Some(E.SeatsConflict); }
      if target in schedules { return Some(E.DuplicateKey); }
      schedules := schedules[source := row.(validUntil := Some(effective - 1))];
      schedules := schedules[target := E.ScheduleRow(row.class_, capacity, row.validUntil, false, row.owner)];
      TransferSchedule(row.class_, source, target);
      error := None;
    }

    // The seat side of a tutor change that splits a row: the new row keeps the capacity.
    method ReplaceForTutor(source: Id, target: Id, effective: Day) returns (error: Option<E.Error>)
      modifies this`schedules, this`enrollments
      ensures Did(old(State()), error, State(), E.ReplaceForTutor(old(State()), source, target, effective))
    {
      hide E.Transferred;
      if source !in schedules || schedules[source].deleted { return Some(E.ScheduleNotFound); }
      if target in schedules { return Some(E.DuplicateKey); }
      var row := schedules[source];
      schedules := schedules[source := row.(validUntil := Some(effective - 1))];
      schedules := schedules[target := E.ScheduleRow(row.class_, row.capacity, row.validUntil, false, row.owner)];
      TransferSchedule(row.class_, source, target);
      error := None;
    }

    // The seat side of a deletion: a schedule with reserved seats stays.
    method RemoveSchedule(schedule: Id) returns (error: Option<E.Error>)
      modifies this`schedules
      ensures Did(old(State()), error, State(), E.RemoveSchedule(old(State()), schedule))
    {
      hide E.Seats;
      if schedule !in schedules || schedules[schedule].deleted { return Some(E.ScheduleNotFound); }
      var occupied := CountSeats(schedule);
      if occupied > 0 || occupied > schedules[schedule].capacity { return Some(E.SeatsConflict); }
      schedules := schedules[schedule := schedules[schedule].(deleted := true)];
      error := None;
    }

    method ActivateEnrollment(id: Id) returns (error: Option<E.Error>)
      modifies this`enrollments
      ensures Did(old(State()), error, State(), E.Activate(old(State()), id))
      ensures error.None? ==>
          OnlyStatus(old(State()), State(), id, E.Active) && SeatsLess(old(State()), State(), id, false)
    {
      ghost var before := State();
      if id !in enrollments || enrollments[id].deleted { return Some(E.EnrollmentNotFound); }
      if enrollments[id].status == E.Pending { enrollments := enrollments[id := enrollments[id].(status := E.Active)]; }
      error := if enrollments[id].status == E.Active then None else Some(E.InvalidTransition);
      if error.None? { SeatsFreedAll(before, E.OpActivate(id)); }
    }

    method ReleaseEnrollment(id: Id) returns (error: Option<E.Error>)
      modifies this`enrollments
      ensures Did(old(State()), error, State(), E.Release(old(State()), id))
      ensures error.None? ==> OnlyStatus(old(State()), State(), id,
                                         if T.HasStatus(old(State()), id, {E.Active}) then E.Active else E.Dropped)
      ensures error.None? ==> SeatsLess(old(State()), State(), id, T.HasStatus(old(State()), id, {E.Pending}))
    {
      ghost var before := State();
      if id !in enrollments || enrollments[id].deleted { return Some(E.EnrollmentNotFound); }
      if enrollments[id].status == E.Pending {
        enrollments := enrollments[id := enrollments[id].(status := E.Dropped)];
      }
      error := if enrollments[id].status == E.Dropped || enrollments[id].status == E.Active then None
               else Some(E.InvalidTransition);
      if error.None? { SeatsFreedAll(before, E.OpRelease(id)); }
    }

    method SuspendEnrollment(id: Id) returns (error: Option<E.Error>)
      modifies this`enrollments
      ensures Did(old(State()), error, State(), E.Suspend(old(State()), id))
      ensures error.None? ==>
          OnlyStatus(old(State()), State(), id, E.Suspended) && SeatsLess(old(State()), State(), id, true)
    {
      ghost var before := State();
      if id !in enrollments || enrollments[id].deleted { return Some(E.EnrollmentNotFound); }
      if enrollments[id].status == E.Active {
        enrollments := enrollments[id := enrollments[id].(status := E.Suspended)];
      }
      error := if enrollments[id].status == E.Suspended then None else Some(E.InvalidTransition);
      if error.None? { SeatsFreedAll(before, E.OpSuspend(id)); }
    }

    method EndEnrollment(id: Id) returns (error: Option<E.Error>)
      modifies this`enrollments
      ensures Did(old(State()), error, State(), E.End(old(State()), id))
      ensures error.None? ==>
          OnlyStatus(old(State()), State(), id, E.Dropped) && SeatsLess(old(State()), State(), id, true)
    {
      ghost var before := State();
      if id !in enrollments || enrollments[id].deleted { return Some(E.EnrollmentNotFound); }
      if enrollments[id].status == E.Active || enrollments[id].status == E.Suspended {
        enrollments := enrollments[id := enrollments[id].(status := E.Dropped)];
      }
      error := if enrollments[id].status == E.Dropped then None else Some(E.InvalidTransition);
      if error.None? { SeatsFreedAll(before, E.OpEnd(id)); }
    }

    // The locked part of a parent's cancellation, after the withdrawal of the payment.
    method DropPending(id: Id) returns (error: Option<E.Error>)
      modifies this`enrollments
      ensures Did(old(State()), error, State(), E.CancelPending(old(State()), id))
      ensures error.None? ==>
          OnlyStatus(old(State()), State(), id, E.Dropped) && SeatsLess(old(State()), State(), id, true)
    {
      ghost var before := State();
      if id !in enrollments || enrollments[id].deleted { return Some(E.EnrollmentNotFound); }
      if enrollments[id].status != E.Pending { return Some(E.InvalidTransition); }
      enrollments := enrollments[id := enrollments[id].(status := E.Dropped)];
      error := None;
      if error.None? { SeatsFreedAll(before, E.OpCancel(id)); }
    }

    method DropInvoiceRejected(id: Id, payment: E.PaymentStatus) returns (error: Option<E.Error>)
      modifies this`enrollments
      ensures Did(old(State()), error, State(), E.DropRejected(old(State()), id, payment))
    {
      if id !in enrollments || enrollments[id].deleted { return Some(E.EnrollmentNotFound); }
      if enrollments[id].status != E.Pending { return None; }
      enrollments := enrollments[id := enrollments[id].(status := E.Dropped, payment := payment)];
      error := None;
    }

    method UpdatePaymentDetails(id: Id, transaction: Id, checkout: string) returns (error: Option<E.Error>)
      modifies this`enrollments
      ensures Did(old(State()), error, State(), E.UpdatePayment(old(State()), id, transaction, checkout))
    {
      var rows: set<Id> := set i | i in enrollments && i == id && E.Live(enrollments[i]) &&
          enrollments[i].transaction.None?;
      if rows == {} {
        assert id in enrollments && E.Live(enrollments[id]) && enrollments[id].transaction.None? ==> id in rows;
        return Some(E.InvalidTransition);
      }
      assert id in rows;
      enrollments := enrollments[id := enrollments[id].(transaction := Some(transaction), checkout := Some(checkout))];
      error := None;
    }

    method RestoreRejectedEnrollment(id: Id) returns (error: Option<E.Error>)
      modifies this`enrollments
      ensures Did(old(State()), error, State(), E.Restore(old(State()), id))
    {
      if id !in enrollments || enrollments[id].deleted || enrollments[id].status != E.Dropped ||
          enrollments[id].payment != E.PlatformFeeRejected {
        return Some(E.NotRestorable);
      }
      var e := enrollments[id].(status := E.Pending, payment := E.PaymentPending);
      // The partial unique index refuses a second live row.
      var duplicate := RejectLive(id, e);
      if duplicate { return Some(E.DuplicateEnrollment); }
      enrollments := enrollments[id := e];
      error := None;
    }
  }
}
