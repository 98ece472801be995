// What the caller of each enrollment transaction gets, told from the tables alone: when it
// succeeds, which error comes first, and everything that it changes.
module EnrollmentOutcomes {
  import opened Common
  import opened Calendar
  import opened Enrollments

  predicate HasPlace(e: Enrollment) {
    !e.deleted && (e.status == Pending || e.status == Active)
  }

  predicate There(t: Tables, id: Id) {
    id in t.enrollments && !t.enrollments[id].deleted
  }

  // The student has no other place in the class.
  predicate FreeOf(t: Tables, id: Id, student: Id, class_: Id) {
    forall other :: other in t.enrollments && other != id && HasPlace(t.enrollments[other]) ==>
      !(t.enrollments[other].student == student && t.enrollments[other].class_ == class_)
  }

  function Places(t: Tables, schedule: Id): set<Id> {
    set id | id in t.enrollments && HasPlace(t.enrollments[id]) && t.enrollments[id].schedule == Some(schedule)
  }

  predicate RowOpen(t: Tables, schedule: Id) {
    schedule in t.schedules && !t.schedules[schedule].deleted
  }

  predicate Running(row: ScheduleRow, today: Day) {
    row.validUntil.Some? ==> today <= row.validUntil.value
  }

  predicate HasRoom(t: Tables, schedule: Id)
    requires schedule in t.schedules
  {
    |Places(t, schedule)| < t.schedules[schedule].capacity
  }

  // Exactly one enrollment is written.
  predicate Wrote(r: Result<Tables, Error>, t: Tables, id: Id, e: Enrollment) {
    r == Ok(Tables(t.classes, t.schedules, t.enrollments[id := e]))
  }

  lemma PlacesAreSeats(t: Tables, schedule: Id)
    ensures Places(t, schedule) == SeatSet(t.enrollments, schedule) && |Places(t, schedule)| == Seats(t, schedule)
  {
    assert Places(t, schedule) == SeatSet(t.enrollments, schedule);
  }

  lemma FreeIsNoDuplicate(t: Tables, id: Id, e: Enrollment)
    ensures FreeOf(t, id, e.student, e.class_) <==> !Duplicates(t, id, e)
  {
  }

  // ---- Taking a place ----

  // A signup succeeds exactly when its id is new, the class is there, published and open, the
  // student has no place in it and, with a schedule, that row is one of the class that runs and
  // has room, or without one the class is no group class. The first failing check answers.
  lemma SignupExactly(t: Tables, id: Id, student: Id, class_: Id, seat: Option<Id>, today: Day)
    ensures
      var r := Answer(t, OpSignup(id, student, class_, seat, today));
      var there := class_ in t.classes && !t.classes[class_].deleted;
      var isNew, free := id !in t.enrollments, FreeOf(t, id, student, class_);
      && (!isNew ==> r == Err(DuplicateKey))
      && (isNew && !there ==> r == Err(ClassNotFound))
      && (isNew && there && !(t.classes[class_].published && t.classes[class_].open) ==> r == Err(ClassNotEnrollable))
      && (isNew && there && t.classes[class_].published && t.classes[class_].open ==>
            if seat.Some? then
              var s := seat.value;
              var of := RowOpen(t, s) && t.schedules[s].class_ == class_;
              && (!of ==> r == Err(ScheduleClassMismatch))
              && (of && !Running(t.schedules[s], today) ==> r == Err(ScheduleEnded))
              && (of && Running(t.schedules[s], today) && !free ==> r == Err(DuplicateEnrollment))
              && (of && Running(t.schedules[s], today) && free && !HasRoom(t, s) ==> r == Err(ScheduleFull))
              && (of && Running(t.schedules[s], today) && free && HasRoom(t, s) ==>
                    SignedUp(r, t, id, student, class_, seat))
            else
              && (t.classes[class_].isGroup ==> r == Err(ScheduleRequired))
              && (!t.classes[class_].isGroup && !free ==> r == Err(DuplicateEnrollment))
              && (!t.classes[class_].isGroup && free ==> SignedUp(r, t, id, student, class_, seat)))
  {
    hide Duplicates, Seats, FreeOf, Places;
    FreeIsNoDuplicate(t, id, NewEnrollment(student, class_, seat));
    if seat.Some? { PlacesAreSeats(t, seat.value); }
  }

  predicate SignedUp(r: Result<Tables, Error>, t: Tables, id: Id, student: Id, class_: Id, seat: Option<Id>) {
    Wrote(r, t, id, Enrollment(student, class_, seat, Pending, PaymentPending, None, None, false))
  }

  // A suspended enrollment takes its place back exactly when its schedule, if any, is one of
  // the class, runs and has room, and the student has no other place in the class.
  lemma ResumeExactly(t: Tables, id: Id, today: Day)
    ensures
      var r := Answer(t, OpResume(id, today));
      && (!There(t, id) ==> r == Err(EnrollmentNotFound))
      && (There(t, id) && t.enrollments[id].status == Active ==> r == Ok(t))
      && (There(t, id) && t.enrollments[id].status != Active && t.enrollments[id].status != Suspended ==>
            r == Err(InvalidTransition))
      && (There(t, id) && t.enrollments[id].status == Suspended ==>
            var e := t.enrollments[id];
            var runs := e.schedule.Some? ==>
                          && RowOpen(t, e.schedule.value) && t.schedules[e.schedule.value].class_ == e.class_
                          && Running(t.schedules[e.schedule.value], today);
            var room := runs && e.schedule.Some? ==> HasRoom(t, e.schedule.value);
            var free := FreeOf(t, id, e.student, e.class_);
            && (!runs ==> r == Err(SuspendedConflict))
            && (runs && !room ==> r == Err(ScheduleFull))
            && (runs && room && !free ==> r == Err(SuspendedConflict))
            && (runs && room && free ==> Wrote(r, t, id, e.(status := Active))))
  {
    hide Duplicates, Seats, FreeOf, Places;
    if There(t, id) {
      var e := t.enrollments[id];
      FreeIsNoDuplicate(t, id, e);
      if e.schedule.Some? { PlacesAreSeats(t, e.schedule.value); }
    }
  }

  // A schedule is assigned exactly to a pending enrollment that has none, from its class, while
  // the row runs and has room.
  lemma AssignExactly(t: Tables, id: Id, schedule: Id, today: Day)
    ensures
      var r := Answer(t, OpAssign(id, schedule, today));
      && (!There(t, id) ==> r == Err(EnrollmentNotFound))
      && (There(t, id) ==>
            var e := t.enrollments[id];
            var waits := e.status == Pending && e.schedule.None?;
            && (!waits ==> r == Err(InvalidTransition))
            && (waits && !RowOpen(t, schedule) ==> r == Err(ScheduleNotFound))
            && (waits && RowOpen(t, schedule) ==>
                  var row := t.schedules[schedule];
                  var of := row.class_ == e.class_;
                  && (!of ==> r == Err(ScheduleClassMismatch))
                  && (of && !Running(row, today) ==> r == Err(ScheduleEnded))
                  && (of && Running(row, today) && !HasRoom(t, schedule) ==> r == Err(ScheduleFull))
                  && (of && Running(row, today) && HasRoom(t, schedule) ==>
                        Wrote(r, t, id, e.(schedule := Some(schedule))))))
  {
    hide Seats, Places;
    PlacesAreSeats(t, schedule);
  }

  // ---- The life cycle ----

  // Which notification moves an enrollment from which status, which repeat it accepts as done,
  // and which it refuses.
  lemma NotifiedExactly(t: Tables, id: Id)
    requires There(t, id)
    ensures
      var e := t.enrollments[id];
      var activated, released := Answer(t, OpActivate(id)), Answer(t, OpRelease(id));
      var suspended, ended := Answer(t, OpSuspend(id)), Answer(t, OpEnd(id));
      match e.status
      case Pending =>
        && Wrote(activated, t, id, e.(status := Active)) && Wrote(released, t, id, e.(status := Dropped))
        && suspended == Err(InvalidTransition) && ended == Err(InvalidTransition)
      case Active =>
        && activated == Ok(t) && released == Ok(t)
        && Wrote(suspended, t, id, e.(status := Suspended)) && Wrote(ended, t, id, e.(status := Dropped))
      case Suspended =>
        && activated == Err(InvalidTransition) && released == Err(InvalidTransition)
        && suspended == Ok(t) && Wrote(ended, t, id, e.(status := Dropped))
      case Dropped =>
        && activated == Err(InvalidTransition) && released == Ok(t)
        && suspended == Err(InvalidTransition) && ended == Ok(t)
      case Completed =>
        && activated == Err(InvalidTransition) && released == Err(InvalidTransition)
        && suspended == Err(InvalidTransition) && ended == Err(InvalidTransition)
  {
  }

  lemma UnknownIsRefused(t: Tables, id: Id, op: Op)
    requires !There(t, id)
    requires op == OpActivate(id) || op == OpRelease(id) || op == OpSuspend(id) || op == OpEnd(id) || op == OpCancel(id)
             || (op.OpDropRejected? && op.id == id) || (op.OpSavePayment? && op.id == id)
    ensures Answer(t, op) == Err(EnrollmentNotFound)
  {
  }

  // A parent's cancellation drops a pending enrollment only; a refusal of its invoice drops it
  // with the reason, and leaves any other alone.
  lemma DroppedExactly(t: Tables, id: Id, payment: PaymentStatus)
    requires There(t, id)
    ensures
      var e := t.enrollments[id];
      var cancelled, rejected := Answer(t, OpCancel(id)), Answer(t, OpDropRejected(id, payment));
      if e.status == Pending then
        && Wrote(cancelled, t, id, e.(status := Dropped))
        && Wrote(rejected, t, id, e.(status := Dropped, payment := payment))
      else cancelled == Err(InvalidTransition) && rejected == Ok(t)
  {
  }

  // Only an enrollment that was dropped for the platform fee comes back, unless the student has
  // another place by now.
  lemma RestoredExactly(t: Tables, id: Id)
    ensures
      var r := Answer(t, OpRestore(id));
      var refused := There(t, id) && t.enrollments[id].status == Dropped
                     && t.enrollments[id].payment == PlatformFeeRejected;
      && (!refused ==> r == Err(NotRestorable))
      && (refused ==>
            var e := t.enrollments[id];
            if FreeOf(t, id, e.student, e.class_)
            then Wrote(r, t, id, e.(status := Pending, payment := PaymentPending))
            else r == Err(DuplicateEnrollment))
  {
    hide Duplicates, FreeOf;
    if There(t, id) {
      FreeIsNoDuplicate(t, id, t.enrollments[id].(status := Pending, payment := PaymentPending));
    }
  }

  // ---- Payment details ----

  lemma InvoiceStoredExactly(t: Tables, id: Id, transaction: Id, checkout: string)
    ensures
      var r := Answer(t, OpUpdatePayment(id, transaction, checkout));
      var s := Answer(t, OpSavePayment(id, transaction, checkout));
      && (if There(t, id) && t.enrollments[id].transaction.None? && HasPlace(t.enrollments[id])
          then Wrote(r, t, id, t.enrollments[id].(transaction := Some(transaction), checkout := Some(checkout)))
          else r == Err(InvalidTransition))
      && (There(t, id) ==>
            Wrote(s, t, id, t.enrollments[id].(transaction := Some(transaction), checkout := Some(checkout),
                                               payment := PaymentPending)))
  {
  }

  // The save of an earlier copy writes that copy with the invoice, whatever the row is now.
  lemma CopySavedExactly(t: Tables, id: Id, earlier: Enrollment, transaction: Id, checkout: string)
    ensures
      var r := StaleSave(t, id, earlier, transaction, checkout);
      if HasPlace(earlier) && !FreeOf(t, id, earlier.student, earlier.class_) then r == Err(DuplicateEnrollment)
      else Wrote(r, t, id, earlier.(transaction := Some(transaction), checkout := Some(checkout),
                                    payment := PaymentPending))
  {
    hide Duplicates, FreeOf;
    FreeIsNoDuplicate(t, id, WithInvoice(earlier, transaction, checkout));
  }

  // ---- Schedule changes ----

  // The old row ends the day before, the new one takes its class, its end and its owner, and
  // exactly the places of the old row in its class move.
  ghost predicate TakenOver(t: Tables, u: Tables, source: Id, target: Id, capacity: int, effective: Day)
    requires source in t.schedules
  {
    var row := t.schedules[source];
    && u.classes == t.classes && u.enrollments.Keys == t.enrollments.Keys
    && u.schedules == t.schedules[source := row.(validUntil := Some(effective - 1))]
                                 [target := ScheduleRow(row.class_, capacity, row.validUntil, false, row.owner)]
    && forall id :: id in t.enrollments ==>
         u.enrollments[id] == if id in Places(t, source) && t.enrollments[id].class_ == row.class_
                              then t.enrollments[id].(schedule := Some(target)) else t.enrollments[id]
  }

  lemma ReplacedExactly(t: Tables, source: Id, target: Id, capacity: int, effective: Day)
    ensures
      var r := Answer(t, OpReplace(source, target, capacity, effective));
      && (!RowOpen(t, source) ==> r == Err(ScheduleNotFound))
      && (RowOpen(t, source) && |Places(t, source)| > capacity ==> r == Err(SeatsConflict))
      && (RowOpen(t, source) && |Places(t, source)| <= capacity && target in t.schedules ==> r == Err(DuplicateKey))
      && (RowOpen(t, source) && |Places(t, source)| <= capacity && target !in t.schedules ==>
            r.Ok? && TakenOver(t, r.value, source, target, capacity, effective))
  {
    PlacesAreSeats(t, source);
    hide Seats;
  }

  lemma ReplacedForTutorExactly(t: Tables, source: Id, target: Id, effective: Day)
    ensures
      var r := Answer(t, OpReplaceForTutor(source, target, effective));
      && (!RowOpen(t, source) ==> r == Err(ScheduleNotFound))
      && (RowOpen(t, source) && target in t.schedules ==> r == Err(DuplicateKey))
      && (RowOpen(t, source) && target !in t.schedules ==>
            r.Ok? && TakenOver(t, r.value, source, target, t.schedules[source].capacity, effective))
  {
  }

  lemma RemovedExactly(t: Tables, schedule: Id)
    ensures
      var r := Answer(t, OpRemoveSchedule(schedule));
      && (!RowOpen(t, schedule) ==> r == Err(ScheduleNotFound))
      && (RowOpen(t, schedule) && (Places(t, schedule) != {} || t.schedules[schedule].capacity < 0) ==>
            r == Err(SeatsConflict))
      && (RowOpen(t, schedule) && Places(t, schedule) == {} && t.schedules[schedule].capacity >= 0 ==>
            r == Ok(Tables(t.classes, t.schedules[schedule := t.schedules[schedule].(deleted := true)], t.enrollments)))
  {
    hide Seats, Places;
    PlacesAreSeats(t, schedule);
    assert |Places(t, schedule)| == 0 <==> Places(t, schedule) == {};
  }

  lemma EditsWriteNothing(t: Tables, op: Op)
    requires op.OpGenerate? || op.OpEditSession?
    ensures Answer(t, op) == Ok(t)
  {
  }
}
