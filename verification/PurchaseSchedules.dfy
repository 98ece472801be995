// From a purchase to its lessons: the schedule rows of the chosen slots, the sessions they
// start with, and what the worker makes of them.
module PurchaseSchedules {
  import opened Common
  import opened Calendar
  import opened Generation
  import opened ScheduleVersions
  import opened GenerationLaws
  import opened PrivateSlots
  import Service = ScheduleService

  // The purchase names no tutor and no location; the row is valid from the day of purchase.
  function ItemOf(class_: Id, enrollment: Id, slot: Slot): NewSchedule
    requires WellFormed(slot)
  {
    NewSchedule(class_, Some(enrollment), true, None, false, 1, None, slot.day, Some(Span(slot).start),
                Some(Span(slot).end), None, None)
  }

  function Items(class_: Id, enrollment: Id, slots: seq<Slot>, ids: seq<Id>): seq<(Id, NewSchedule)>
    requires |ids| == |slots| && AllWellFormed(slots)
  {
    seq(|slots|, i requires 0 <= i < |slots| => (ids[i], ItemOf(class_, enrollment, slots[i])))
  }

  // A session takes place on the slot's weekday at the slot's times.
  predicate AtSlot(slot: Slot, d: Day, s: Session)
    requires WellFormed(slot)
  {
    IsoWeekday(d) == slot.day && s.startTime == Span(slot).start && s.endTime == Span(slot).end
  }

  ghost predicate Teaches(db: Db, id: Id, slot: Slot)
    requires WellFormed(slot)
  {
    && Known(db, id) && db.schedules[id].dayOfWeek == slot.day
    && db.schedules[id].startTime == Span(slot).start && db.schedules[id].endTime == Span(slot).end
    && forall d :: d in db.sessions[id] ==> AtSlot(slot, d, db.sessions[id][d])
  }

  // A row as its purchase leaves it.
  ghost predicate Bought(db: Db, id: Id, class_: Id, enrollment: Id, slot: Slot, today: Day)
    requires WellFormed(slot)
  {
    && Found(db, id) && Teaches(db, id, slot)
    && db.schedules[id].class_ == class_ && db.schedules[id].enrollment == Some(enrollment)
    && db.schedules[id].validFrom == Some(today) && db.schedules[id].validUntil.None?
    && GeneratedThrough(RowOf(db, id), today, MonthEnd(MonthOf(today)))
  }

  lemma OneBought(db: Db, id: Id, class_: Id, enrollment: Id, slot: Slot, today: Day)
    requires WellFormed(slot) && class_ in db.privateClasses && id !in db.schedules
    ensures var r := CreateSchedule(db, id, ItemOf(class_, enrollment, slot), today);
            && r.Ok? && Bought(r.value, id, class_, enrollment, slot, today)
            && r.value.privateClasses == db.privateClasses && r.value.deletedClasses == db.deletedClasses
            && r.value.liveEnrollments == db.liveEnrollments && r.value.schedules.Keys == db.schedules.Keys + {id}
            && (forall q :: q in db.schedules && q in db.sessions ==>
                  Known(r.value, q) && RowOf(r.value, q) == RowOf(db, q))
  {
    hide IsoWeekday, ParseClock, EndOfMonth, MonthOf, MonthEnd, GeneratedThrough;
    var r := CreateSchedule(db, id, ItemOf(class_, enrollment, slot), today).value;
    StartsGenerated(r.schedules[id], today);
  }

  // With fresh ids the purchase always creates all its rows.
  lemma {:induction false} PurchaseCreates(db: Db, class_: Id, enrollment: Id, slots: seq<Slot>, ids: seq<Id>,
                                           today: Day)
    requires |ids| == |slots| && AllWellFormed(slots) && class_ in db.privateClasses
    requires forall i, j :: 0 <= i < j < |ids| ==> ids[i] != ids[j]
    requires forall i :: 0 <= i < |ids| ==> ids[i] !in db.schedules
    ensures var r := Service.CreateAll(db, Items(class_, enrollment, slots, ids), today);
            && r.Ok? && r.value.deletedClasses == db.deletedClasses && r.value.liveEnrollments == db.liveEnrollments
            && (forall i :: 0 <= i < |ids| ==> Bought(r.value, ids[i], class_, enrollment, slots[i], today))
            && (forall q :: q in db.schedules && q in db.sessions ==>
                  Known(r.value, q) && RowOf(r.value, q) == RowOf(db, q))
    decreases |slots|
  {
    hide CreateSchedule, Teaches, GeneratedThrough, MonthOf, MonthEnd, WellFormed, Span;
    if slots != [] {
      OneBought(db, ids[0], class_, enrollment, slots[0], today);
      var next := CreateSchedule(db, ids[0], ItemOf(class_, enrollment, slots[0]), today).value;
      assert Items(class_, enrollment, slots, ids)[1..] == Items(class_, enrollment, slots[1..], ids[1..]);
      PurchaseCreates(next, class_, enrollment, slots[1..], ids[1..], today);
      var after := Service.CreateAll(db, Items(class_, enrollment, slots, ids), today).value;
      assert RowOf(after, ids[0]) == RowOf(next, ids[0]);
      SameRowBought(next, after, ids[0], class_, enrollment, slots[0], today);
      forall i | 1 <= i < |ids| ensures Bought(after, ids[i], class_, enrollment, slots[i], today) {
        assert ids[i] == ids[1..][i - 1] && slots[i] == slots[1..][i - 1];
      }
    }
  }

  lemma SameRowBought(db: Db, after: Db, id: Id, class_: Id, enrollment: Id, slot: Slot, today: Day)
    requires WellFormed(slot) && Bought(db, id, class_, enrollment, slot, today)
    requires Known(after, id) && RowOf(after, id) == RowOf(db, id)
    ensures Bought(after, id, class_, enrollment, slot, today)
  {
    hide IsoWeekday, GeneratedThrough, MonthOf, MonthEnd, ParseClock;
  }

  // Every chosen slot gets a lesson on each of its weekdays from the day of purchase through
  // the last horizon, and no other, as long as the worker's passes are on time.
  lemma LessonsAreExactlyTheSlots(db: Db, class_: Id, enrollment: Id, slots: seq<Slot>, ids: seq<Id>, today: Day,
                                  k: nat, clock: seq<Day>, horizonMonths: nat, d: Day)
    requires |ids| == |slots| && Acceptable(slots) && k < |ids|
    requires class_ in db.privateClasses && class_ !in db.deletedClasses && enrollment in db.liveEnrollments
    requires forall i, j :: 0 <= i < j < |ids| ==> ids[i] != ids[j]
    requires forall i :: 0 <= i < |ids| ==> ids[i] !in db.schedules
    requires OnTime(MonthOf(today), clock, horizonMonths)
    ensures var bought := Service.CreateAll(db, Items(class_, enrollment, slots, ids), today);
            && bought.Ok?
            && var passed := Steps(bought.value, ids[k], WindowsOf(clock, horizonMonths));
            && ids[k] in passed.sessions
            && (d in passed.sessions[ids[k]] <==>
                today <= d <= CoveredUntil(MonthEnd(MonthOf(today)), WindowsOf(clock, horizonMonths))
                && IsoWeekday(d) == slots[k].day)
  {
    PurchaseCreates(db, class_, enrollment, slots, ids, today);
    var bought := Service.CreateAll(db, Items(class_, enrollment, slots, ids), today).value;
    assert Bought(bought, ids[k], class_, enrollment, slots[k], today);
    var row := bought.schedules[ids[k]];
    GapFreeMeansOnTime(MonthOf(today), clock, horizonMonths);
    hide Service.CreateAll, MonthOf, MonthEnd, WindowsOf, Steps, Passes, Dates, GeneratedThrough, Items, IsoWeekday,
         CoveredUntil;
    StepsArePasses(bought, ids[k], WindowsOf(clock, horizonMonths));
    PassesRefineOneShot(RowOf(bought, ids[k]), today, MonthEnd(MonthOf(today)), WindowsOf(clock, horizonMonths));
    DatesExact(row, today, CoveredUntil(MonthEnd(MonthOf(today)), WindowsOf(clock, horizonMonths)));
  }

  // ---- Lessons of one purchase never overlap ----

  predicate WorkerRun(ops: seq<Op>) {
    forall i :: 0 <= i < |ops| ==> ops[i].OpWorker?
  }

  lemma {:induction false} WorkerKeepsTeaching(db: Db, ops: seq<Op>, id: Id, slot: Slot)
    requires WellFormed(slot) && Teaches(db, id, slot) && WorkerRun(ops)
    ensures Teaches(Run(db, ops), id, slot)
    decreases ops
  {
    hide WellFormed, Span, IsoWeekday, Due, Visible, InWindow, FillFrom;
    if ops != [] {
      assert ops[0].OpWorker?;
      assert WorkerRun(ops[1..]) by { assert forall i :: 0 <= i < |ops[1..]| ==> ops[1..][i] == ops[i + 1]; }
      WorkerKeepsTeaching(Apply(db, ops[0]), ops[1..], id, slot);
    }
  }

  // Whatever the worker does with the rows, and with any others, in whatever order.
  lemma LessonsNeverOverlap(db: Db, class_: Id, enrollment: Id, slots: seq<Slot>, ids: seq<Id>, today: Day,
                            ops: seq<Op>, i: nat, j: nat, d: Day)
    requires |ids| == |slots| && Acceptable(slots) && class_ in db.privateClasses && i < j < |ids| && WorkerRun(ops)
    requires forall i, j :: 0 <= i < j < |ids| ==> ids[i] != ids[j]
    requires forall i :: 0 <= i < |ids| ==> ids[i] !in db.schedules
    ensures var bought := Service.CreateAll(db, Items(class_, enrollment, slots, ids), today);
            && bought.Ok?
            && var after := Run(bought.value, ops);
            && ids[i] in after.sessions && ids[j] in after.sessions
            && (d in after.sessions[ids[i]] && d in after.sessions[ids[j]] ==>
                var a, b := after.sessions[ids[i]][d], after.sessions[ids[j]][d];
                a.endTime <= b.startTime || b.endTime <= a.startTime)
  {
    hide Service.CreateAll, Run, IsoWeekday, WellFormed, GeneratedThrough, MonthOf, MonthEnd, Items;
    PurchaseCreates(db, class_, enrollment, slots, ids, today);
    var bought := Service.CreateAll(db, Items(class_, enrollment, slots, ids), today).value;
    assert Bought(bought, ids[i], class_, enrollment, slots[i], today);
    assert Bought(bought, ids[j], class_, enrollment, slots[j], today);
    WorkerKeepsTeaching(bought, ops, ids[i], slots[i]);
    WorkerKeepsTeaching(bought, ops, ids[j], slots[j]);
  }
}
