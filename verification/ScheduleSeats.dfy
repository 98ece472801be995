// A schedule change as the one transaction it is: the rows and sessions on one side, the
// enrollments that sit on them on the other. The seats the guard counts are the live
// enrollments, and the live enrollments follow the row.
module ScheduleSeats {
  import opened Common
  import opened Calendar
  import G = Generation
  import S = ScheduleVersions
  import Service = ScheduleService
  import E = Enrollments
  import Seating = EnrollmentService
  import T = EnrollmentTheorems

  // Both sides describe the same schedule rows.
  ghost predicate SameRow(row: G.Schedule, seat: E.ScheduleRow) {
    row.class_ == seat.class_ && row.capacity == seat.capacity && row.validUntil == seat.validUntil &&
        row.deleted == seat.deleted && row.enrollment == seat.owner
  }

  ghost predicate Agree(db: S.Db, t: E.Tables) {
    && db.schedules.Keys == t.schedules.Keys && db.sessions.Keys == db.schedules.Keys
    && forall id :: id in db.schedules ==> SameRow(db.schedules[id], t.schedules[id])
  }

  function NewCapacity(db: S.Db, id: Id, req: S.PermanentChange): int
    requires id in db.schedules
  {
    if req.newCapacity.Some? then req.newCapacity.value else db.schedules[id].capacity
  }

  // A permanent change whose seat check passed replaces the row on both sides.
  lemma PermanentAgrees(db: S.Db, t: E.Tables, id: Id, newId: Id, req: S.PermanentChange, today: Day)
    requires Agree(db, t) && S.ChangePermanent(db, id, newId, req, today, E.Seats(t, id)).Ok?
    ensures id in db.schedules && req.effective.Some?
    ensures var moved := E.Replace(t, id, newId, NewCapacity(db, id, req), req.effective.value);
            moved.Ok? && Agree(S.ChangePermanent(db, id, newId, req, today, E.Seats(t, id)).value, moved.value)
  {
    hide E.Seats, E.Transferred, S.InitialSessions, S.Cancel, S.HasHistory;
  }

  lemma TutorAgrees(db: S.Db, t: E.Tables, id: Id, newId: Id, tutor: Id, active: bool, effective: Day)
    requires Agree(db, t) && S.ChangeTutor(db, id, newId, tutor, active, effective).Ok?
    ensures id in db.schedules
    ensures var changed := S.ChangeTutor(db, id, newId, tutor, active, effective).value;
            if S.TutorChangeKind(db.schedules[id], tutor) == S.SplitRow
            then E.ReplaceForTutor(t, id, newId, effective).Ok? &&
                Agree(changed, E.ReplaceForTutor(t, id, newId, effective).value)
            else Agree(changed, t)
  {
    hide E.Transferred, S.Moved, S.Staying, S.SetTutor;
  }

  lemma DeletionAgrees(db: S.Db, t: E.Tables, id: Id, today: Day)
    requires Agree(db, t) && S.DeleteSchedule(db, id, today, E.Seats(t, id)).Ok?
    ensures E.RemoveSchedule(t, id).Ok?
    ensures Agree(S.DeleteSchedule(db, id, today, E.Seats(t, id)).value, E.RemoveSchedule(t, id).value)
  {
    hide E.Seats, S.Cancel, S.HasHistory;
  }

  // A permanent change moves every seat of the old row to the new one; no enrollment is left
  // on a row that ended and none is lost.
  lemma ChangeMovesSeats(db: S.Db, t: E.Tables, id: Id, newId: Id, req: S.PermanentChange, today: Day, schedule: Id)
    requires Agree(db, t) && E.Inv(t) && E.ClassesMatch(t)
    requires S.ChangePermanent(db, id, newId, req, today, E.Seats(t, id)).Ok?
    ensures id in db.schedules && req.effective.Some?
    ensures var moved := E.Replace(t, id, newId, NewCapacity(db, id, req), req.effective.value);
            && moved.Ok? && E.Inv(moved.value)
            && E.Seats(moved.value, schedule) ==
               (if schedule == newId then E.Seats(t, id) else if schedule == id then 0 else E.Seats(t, schedule))
  {
    hide E.Seats, E.Transferred, E.Inv, E.ClassesMatch, S.ChangePermanent, Agree;
    PermanentAgrees(db, t, id, newId, req, today);
    var op := E.OpReplace(id, newId, NewCapacity(db, id, req), req.effective.value);
    T.ReplaceMovesEverySeat(t, op, schedule);
    T.ApplyKeepsInv(t, op);
  }

  // The transactions over both tables.
  class ScheduleTransactions {
    const rows: Service.ScheduleUsecase
    const seats: Seating.EnrollmentUsecase

    constructor (rows: Service.ScheduleUsecase, seats: Seating.EnrollmentUsecase)
      ensures this.rows == rows && this.seats == seats
    {
      this.rows := rows;
      this.seats := seats;
    }

    ghost predicate Valid()
      reads this, rows, seats
    {
      Agree(rows.State(), seats.State())
    }

    // The guard counts the live enrollments, and they move in the same transaction.
    method ChangeSchedulePermanent(id: Id, newId: Id, req: S.PermanentChange,
                                   today: Day) returns (error: Option<S.Error>)
      requires Valid()
      modifies rows, seats
      ensures Valid()
      ensures var r := S.ChangePermanent(old(rows.State()), id, newId, req, today, E.Seats(old(seats.State()), id));
              if error.Some?
              then r == Err(error.value) && rows.State() == old(rows.State()) && seats.State() == old(seats.State())
              else
                && r == Ok(rows.State()) && id in old(rows.State()).schedules && req.effective.Some?
                && E.Replace(old(seats.State()), id, newId, NewCapacity(old(rows.State()), id, req),
                             req.effective.value) == Ok(seats.State())
    {
      hide E.Seats, E.Replace, S.ChangePermanent, Agree;
      ghost var db, t := rows.State(), seats.State();
      var occupied := seats.CountSeats(id);
      var known := id in rows.schedules;
      var capacity := 0;
      if known { capacity := if req.newCapacity.Some? then req.newCapacity.value else rows.schedules[id].capacity; }
      error := rows.ChangeSchedulePermanent(id, newId, req, today, occupied);
      if error.Some? { return; }
      PermanentAgrees(db, t, id, newId, req, today);
      var moved := seats.ReplaceSchedule(id, newId, capacity, req.effective.value);
    }

    method ChangeTutorPermanent(id: Id, newId: Id, tutor: Id, tutorActive: bool,
                                effective: Day) returns (error: Option<S.Error>)
      requires Valid()
      modifies rows, seats
      ensures Valid()
      ensures var r := S.ChangeTutor(old(rows.State()), id, newId, tutor, tutorActive, effective);
              if error.Some?
              then r == Err(error.value) && rows.State() == old(rows.State()) && seats.State() == old(seats.State())
              else
                && r == Ok(rows.State()) && id in old(rows.State()).schedules
                && (if S.TutorChangeKind(old(rows.State()).schedules[id], tutor) == S.SplitRow
                    then E.ReplaceForTutor(old(seats.State()), id, newId, effective) == Ok(seats.State())
                    else seats.State() == old(seats.State()))
    {
      hide E.ReplaceForTutor, S.ChangeTutor, Agree;
      ghost var db, t := rows.State(), seats.State();
      var split := id in rows.schedules && S.TutorChangeKind(rows.schedules[id], tutor) == S.SplitRow;
      error := rows.ChangeTutorPermanent(id, newId, tutor, tutorActive, effective);
      if error.Some? { return; }
      TutorAgrees(db, t, id, newId, tutor, tutorActive, effective);
      if split {
        var moved := seats.ReplaceForTutor(id, newId, effective);
      }
    }

    method DeleteSchedule(id: Id, owned: bool, today: Day) returns (error: Option<S.Error>)
      requires Valid()
      modifies rows, seats
      ensures Valid()
      ensures !owned && S.Found(old(rows.State()), id) ==> error == Some(S.ScheduleForbidden)
      ensures var r := S.DeleteSchedule(old(rows.State()), id, today, E.Seats(old(seats.State()), id));
              if error.Some? then
                && (owned || !S.Found(old(rows.State()), id) ==> r == Err(error.value))
                && rows.State() == old(rows.State()) && seats.State() == old(seats.State())
              else r == Ok(rows.State()) && E.RemoveSchedule(old(seats.State()), id) == Ok(seats.State())
    {
      hide E.Seats, E.RemoveSchedule, S.DeleteSchedule, Agree;
      ghost var db, t := rows.State(), seats.State();
      var occupied := seats.CountSeats(id);
      error := rows.DeleteScheduleById(id, owned, today, occupied);
      if error.Some? { return; }
      DeletionAgrees(db, t, id, today);
      var removed := seats.RemoveSchedule(id);
    }
  }
}
