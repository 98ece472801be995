// Session generation for one weekly schedule row: the dates of a range, the
// worker's step for a row, and runs of passes with an arbitrary clock.
module Generation {
  import opened Common
  import opened Calendar

  type TimeOfDay = nat // seconds after midnight

  datatype Schedule = Schedule(
    class_: Id,
    enrollment: Option<Id>,
    tutor: Option<Id>,
    capacity: int,
    location: Option<string>,
    dayOfWeek: int,
    startTime: TimeOfDay,
    endTime: TimeOfDay,
    validFrom: Option<Day>,
    validUntil: Option<Day>,
    generatedUntil: Option<Day>,
    deleted: bool)

  datatype SessionStatus = Scheduled | Rescheduled | Cancelled | Completed

  // The class, the schedule row and the date of a session are where it is stored;
  // attended says that attendance rows exist for it.
  datatype Session = Session(
    enrollment: Option<Id>,
    tutor: Id,
    startTime: TimeOfDay,
    endTime: TimeOfDay,
    status: SessionStatus,
    deleted: bool,
    attended: bool)

  datatype Planned = Planned(date: Day, session: Session)

  predicate InWindow(row: Schedule, d: Day) {
    (row.validFrom.Some? ==> row.validFrom.value <= d) && (row.validUntil.Some? ==> d <= row.validUntil.value)
  }

  predicate Fits(row: Schedule, d: Day) {
    IsoWeekday(d) == row.dayOfWeek && InWindow(row, d)
  }

  function NewSession(row: Schedule): Session {
    Session(row.enrollment, if row.tutor.Some? then row.tutor.value else Nil, row.startTime, row.endTime, Scheduled,
            false, false)
  }

  // The dates of [from, until] on the row's weekday and inside its window, in order.
  function Dates(row: Schedule, from: Day, until: Day): (ds: seq<Day>)
    decreases until - from + 1
  {
    if until < from then [] else Dates(row, from, until - 1) + if Fits(row, until) then [until] else []
  }

  function DateSet(row: Schedule, from: Day, until: Day): set<Day> {
    set d | from <= d <= until && Fits(row, d)
  }

  ghost predicate StrictlyIncreasing(ds: seq<Day>) {
    forall i, j :: 0 <= i < j < |ds| ==> ds[i] < ds[j]
  }

  lemma {:induction false} DatesExact(row: Schedule, from: Day, until: Day)
    ensures StrictlyIncreasing(Dates(row, from, until))
    ensures forall d :: d in Dates(row, from, until) <==> from <= d <= until && Fits(row, d)
    decreases until - from + 1
  {
    hide IsoWeekday;
    if from <= until {
      DatesExact(row, from, until - 1);
      var earlier := Dates(row, from, until - 1);
      assert forall i :: 0 <= i < |earlier| ==> earlier[i] in earlier;
    }
  }

  // Splitting a range anywhere splits the dates there: generating in pieces is
  // generating in one go.
  lemma {:induction false} DatesSplit(row: Schedule, from: Day, mid: Day, until: Day)
    requires from <= mid + 1 && mid <= until
    ensures Dates(row, from, until) == Dates(row, from, mid) + Dates(row, mid + 1, until)
    decreases until - mid
  {
    hide IsoWeekday;
    if mid < until { DatesSplit(row, from, mid, until - 1); }
  }

  lemma {:induction false} DatesNone(row: Schedule, from: Day, until: Day)
    requires forall d :: from <= d <= until ==> !InWindow(row, d)
    ensures Dates(row, from, until) == []
    decreases until - from + 1
  {
    hide IsoWeekday;
    if from <= until { DatesNone(row, from, until - 1); }
  }

  function FloorWeek(x: int): int { x / 7 }

  // Inside the window the number of dates is exact, hence n / 7 rounded down or up
  // for a range of n days.
  lemma {:induction false} DatesCount(row: Schedule, from: Day, until: Day)
    requires from <= until + 1 && 1 <= row.dayOfWeek <= 7
    requires forall d :: from <= d <= until ==> InWindow(row, d)
    ensures |Dates(row, from, until)| == FloorWeek(until + 4 - row.dayOfWeek) - FloorWeek(from + 3 - row.dayOfWeek)
    ensures (until - from + 1) / 7 <= |Dates(row, from, until)| <= (until - from + 7) / 7
    decreases until - from + 1
  {
    if from <= until {
      DatesCount(row, from, until - 1);
      WeekStep(row.dayOfWeek, until);
      WeekBounds(from + 3 - row.dayOfWeek, until + 4 - row.dayOfWeek);
      hide IsoWeekday, FloorWeek;
    }
  }

  lemma WeekStep(dayOfWeek: int, d: Day)
    requires 1 <= dayOfWeek <= 7
    ensures FloorWeek(d + 4 - dayOfWeek) - FloorWeek(d + 3 - dayOfWeek) == if IsoWeekday(d) == dayOfWeek then 1 else 0
  {
  }

  lemma WeekBounds(a: int, b: int)
    ensures (b - a) / 7 <= FloorWeek(b) - FloorWeek(a) <= (b - a + 6) / 7
  {
  }

  // The loop of sessionsForScheduleBetween.
  method SessionsBetween(row: Schedule, fromDate: Day, toDate: Day) returns (sessions: seq<Planned>)
    ensures |sessions| == |Dates(row, fromDate, toDate)|
    ensures forall i :: 0 <= i < |sessions| ==> sessions[i] == Planned(Dates(row, fromDate, toDate)[i], NewSession(row))
  {
    hide IsoWeekday;
    var from, end := fromDate, toDate;
    if row.validFrom.Some? && from < row.validFrom.value {
      from := row.validFrom.value;
    }
    if row.validUntil.Some? && row.validUntil.value < end {
      end := row.validUntil.value;
    }
    ClippedDates(row, fromDate, toDate, from, end);
    sessions := [];
    var d := from;
    while d <= end
      invariant from <= d && (d <= end + 1 || d == from)
      invariant |sessions| == |Dates(row, from, d - 1)|
      invariant forall i :: 0 <= i < |sessions| ==> sessions[i] == Planned(Dates(row, from, d - 1)[i], NewSession(row))
      decreases end - d + 1
    {
      if IsoWeekday(d) == row.dayOfWeek {
        sessions := sessions + [Planned(d, NewSession(row))];
      }
      d := d + 1;
    }
  }

  lemma ClippedDates(row: Schedule, fromDate: Day, toDate: Day, from: Day, end: Day)
    requires fromDate <= from && end <= toDate
    requires from == fromDate || row.validFrom == Some(from)
    requires end == toDate || row.validUntil == Some(end)
    ensures Dates(row, fromDate, toDate) == Dates(row, from, end)
  {
    hide IsoWeekday;
    if end < from {
      DatesNone(row, fromDate, toDate);
    } else {
      DatesNone(row, fromDate, from - 1);
      DatesNone(row, end + 1, toDate);
      DatesSplit(row, fromDate, from - 1, toDate);
      DatesSplit(row, from, end, toDate);
    }
  }

  // A row is due while its watermark is below the horizon and its validity has not
  // ended inside the range already covered.
  predicate Due(row: Schedule, horizon: Day) {
    && (row.generatedUntil.None? || row.generatedUntil.value < horizon)
    && (row.validUntil.None? || row.generatedUntil.None? || row.generatedUntil.value < row.validUntil.value)
  }

  // Sessions before the current month are never backfilled.
  function FillFrom(row: Schedule, monthStart: Day): Day {
    if row.generatedUntil.Some? && monthStart < row.generatedUntil.value + 1
    then row.generatedUntil.value + 1 else monthStart
  }

  // The watermark never moves backwards.
  function MarkUntil(row: Schedule, until: Day): Schedule {
    row.(generatedUntil :=
      if row.generatedUntil.Some? && until < row.generatedUntil.value then row.generatedUntil else Some(until))
  }

  // A schedule row together with every session ever bound to it, removed ones included.
  datatype RowState = RowState(row: Schedule, known: map<Day, Session>)

  function Fill(row: Schedule, known: map<Day, Session>, from: Day, until: Day): map<Day, Session> {
    map d | d in known.Keys + DateSet(row, from, until) :: if d in known then known[d] else NewSession(row)
  }

  function Generate(s: RowState, monthStart: Day, horizon: Day): RowState {
    RowState(MarkUntil(s.row, horizon), Fill(s.row, s.known, FillFrom(s.row, monthStart), horizon))
  }

  // Insert, skipping every date that already has a row.
  method InsertMissing(known: map<Day, Session>, sessions: seq<Planned>)
    returns (after: map<Day, Session>, inserted: nat)
    ensures forall d :: d in after <==> d in known || exists i :: 0 <= i < |sessions| && sessions[i].date == d
    ensures forall d :: d in known ==> after[d] == known[d]
    ensures forall d :: d in after && d !in known ==>
        exists i :: 0 <= i < |sessions| && sessions[i] == Planned(d, after[d])
    ensures inserted == |after| - |known|
  {
    after, inserted := known, 0;
    for n := 0 to |sessions|
      invariant forall d :: d in after <==> d in known || exists i :: 0 <= i < n && sessions[i].date == d
      invariant forall d :: d in known ==> after[d] == known[d]
      invariant forall d :: d in after && d !in known ==> exists i :: 0 <= i < n && sessions[i] == Planned(d, after[d])
      invariant inserted == |after| - |known|
    {
      if sessions[n].date !in after {
        after := after[sessions[n].date := sessions[n].session];
        inserted := inserted + 1;
      }
    }
  }

  // One worker transaction on a locked row.
  method GenerateLocked(s: RowState, monthStart: Day, horizon: Day) returns (r: RowState, created: nat)
    ensures r == Generate(s, monthStart, horizon)
    ensures created == |r.known| - |s.known|
  {
    hide Dates, Fill, NewSession;
    var from := monthStart;
    if s.row.generatedUntil.Some? {
      var next := s.row.generatedUntil.value + 1;
      if from < next { from := next; }
    }
    var sessions := SessionsBetween(s.row, from, horizon);
    var after;
    after, created := InsertMissing(s.known, sessions);
    AfterIsFill(s.row, s.known, from, horizon, sessions, after);
    r := RowState(MarkUntil(s.row, horizon), after);
  }

  lemma AfterIsFill(row: Schedule, known: map<Day, Session>, from: Day, until: Day, sessions: seq<Planned>,
                    after: map<Day, Session>)
    requires |sessions| == |Dates(row, from, until)|
    requires forall i :: 0 <= i < |sessions| ==> sessions[i] == Planned(Dates(row, from, until)[i], NewSession(row))
    requires forall d :: d in after <==> d in known || exists i :: 0 <= i < |sessions| && sessions[i].date == d
    requires forall d :: d in known ==> after[d] == known[d]
    requires forall d :: d in after && d !in known ==>
        exists i :: 0 <= i < |sessions| && sessions[i] == Planned(d, after[d])
    ensures after == Fill(row, known, from, until)
  {
    hide IsoWeekday, InWindow, Dates, StrictlyIncreasing, NewSession;
    DatesExact(row, from, until);
    InsertedIsFill(row, known, DateSet(row, from, until), Dates(row, from, until), sessions, after);
  }

  lemma InsertedIsFill(row: Schedule, known: map<Day, Session>, days: set<Day>, dates: seq<Day>,
                       sessions: seq<Planned>, after: map<Day, Session>)
    requires forall d :: d in dates <==> d in days
    requires |sessions| == |dates|
    requires forall i :: 0 <= i < |sessions| ==> sessions[i] == Planned(dates[i], NewSession(row))
    requires forall d :: d in after <==> d in known || exists i :: 0 <= i < |sessions| && sessions[i].date == d
    requires forall d :: d in known ==> after[d] == known[d]
    requires forall d :: d in after && d !in known ==>
        exists i :: 0 <= i < |sessions| && sessions[i] == Planned(d, after[d])
    ensures after == map d | d in known.Keys + days :: if d in known then known[d] else NewSession(row)
  {
    forall d ensures d in after <==> d in known.Keys + days {
      if d in days {
        var i :| 0 <= i < |dates| && dates[i] == d;
        assert sessions[i].date == d;
      }
      if d in after && d !in known {
        var i :| 0 <= i < |sessions| && sessions[i].date == d;
        assert dates[i] in dates;
      }
    }
    var filled := map d | d in known.Keys + days :: if d in known then known[d] else NewSession(row);
    assert after.Keys == filled.Keys;
    forall d | d in after ensures after[d] == filled[d] {
      if d !in known {
        var i :| 0 <= i < |sessions| && sessions[i] == Planned(d, after[d]);
        assert after[d] == NewSession(row);
      }
    }
    assert after == filled;
  }

  // Generation adds sessions only above the watermark and at or above the month
  // start, keeps every session already there as it is, and never lowers the watermark.
  lemma GenerateIsMonotone(s: RowState, monthStart: Day, horizon: Day)
    ensures forall d :: d in s.known ==>
        d in Generate(s, monthStart, horizon).known && Generate(s, monthStart, horizon).known[d] == s.known[d]
    ensures forall d :: d in Generate(s, monthStart, horizon).known && d !in s.known ==>
      monthStart <= d <= horizon && Fits(s.row, d) && (s.row.generatedUntil.Some? ==> s.row.generatedUntil.value < d)
    ensures Generate(s, monthStart, horizon).row.generatedUntil.Some?
    ensures s.row.generatedUntil.Some? ==>
        s.row.generatedUntil.value <= Generate(s, monthStart, horizon).row.generatedUntil.value
    ensures !Due(Generate(s, monthStart, horizon).row, horizon)
  {
    hide IsoWeekday;
  }

  // The range a worker pass may fill.
  datatype Window = Window(monthStart: Day, horizon: Day)

  function Pass(s: RowState, w: Window): RowState {
    if Due(s.row, w.horizon) then Generate(s, w.monthStart, w.horizon) else s
  }

  function Passes(s: RowState, windows: seq<Window>): RowState
    decreases windows
  {
    if windows == [] then s else Passes(Pass(s, windows[0]), windows[1..])
  }

  function Max(a: int, b: int): int { if a < b then b else a }

  // The last day a run of passes covers when everything through `covered` was covered
  // before it, and whether each pass starts no later than the day after that.
  function CoveredUntil(covered: Day, windows: seq<Window>): Day
    decreases windows
  {
    if windows == [] then covered else CoveredUntil(Max(covered, windows[0].horizon), windows[1..])
  }

  predicate GapFree(covered: Day, windows: seq<Window>)
    decreases windows
  {
    windows == [] ||
    (windows[0].monthStart <= covered + 1 && GapFree(Max(covered, windows[0].horizon), windows[1..]))
  }

  ghost predicate GeneratedThrough(s: RowState, start: Day, covered: Day) {
    && s.row.generatedUntil.Some?
    && s.known.Keys == DateSet(s.row, start, covered)
    && start <= covered + 1
    && (s.row.generatedUntil.value == covered ||
        (s.row.generatedUntil.value <= covered && s.row.validUntil.Some? &&
            s.row.validUntil.value <= s.row.generatedUntil.value))
  }

  lemma PassCovers(s: RowState, start: Day, covered: Day, w: Window)
    requires GeneratedThrough(s, start, covered)
    requires w.monthStart <= covered + 1
    ensures GeneratedThrough(Pass(s, w), start, Max(covered, w.horizon))
    ensures Pass(s, w).row == s.row.(generatedUntil := Pass(s, w).row.generatedUntil)
  {
    hide IsoWeekday;
  }

  // Incremental generation refines one-shot generation: after any run of passes that
  // leaves no gap, the dates ever generated are exactly those of one generation from
  // `start` through the last horizon.
  lemma {:induction false} PassesRefineOneShot(s: RowState, start: Day, covered: Day, windows: seq<Window>)
    requires GeneratedThrough(s, start, covered)
    requires GapFree(covered, windows)
    ensures Passes(s, windows).known.Keys == set d | d in Dates(s.row, start, CoveredUntil(covered, windows))
    decreases |windows|
  {
    hide IsoWeekday, Pass, Fits, Dates;
    if windows == [] {
      DatesExact(s.row, start, covered);
    } else {
      PassCovers(s, start, covered, windows[0]);
      hide GeneratedThrough;
      var t := Pass(s, windows[0]);
      PassesRefineOneShot(t, start, Max(covered, windows[0].horizon), windows[1..]);
      DatesIgnoreWatermark(s.row, t.row.generatedUntil, start, CoveredUntil(covered, windows));
    }
  }

  lemma {:induction false} DatesIgnoreWatermark(row: Schedule, watermark: Option<Day>, from: Day, until: Day)
    ensures Dates(row.(generatedUntil := watermark), from, until) == Dates(row, from, until)
    decreases until - from + 1
  {
    hide IsoWeekday;
    if from <= until { DatesIgnoreWatermark(row, watermark, from, until - 1); }
  }

  // Dates at or below the watermark that were never generated are lost for good.
  lemma {:induction false} NeverBackfilled(s: RowState, d: Day, windows: seq<Window>)
    requires s.row.generatedUntil.Some? && d <= s.row.generatedUntil.value && d !in s.known
    ensures d !in Passes(s, windows).known
    decreases |windows|
  {
    hide IsoWeekday, DateSet;
    if windows != [] {
      GenerateIsMonotone(s, windows[0].monthStart, windows[0].horizon);
      hide Generate;
      NeverBackfilled(Pass(s, windows[0]), d, windows[1..]);
    }
  }

  // The passes of a worker that runs on the given days.
  function WindowsOf(clock: seq<Day>, horizonMonths: nat): (windows: seq<Window>)
    ensures |windows| == |clock|
  {
    if clock == [] then []
    else [Window(WorkerMonthStart(clock[0]), WorkerHorizon(clock[0], horizonMonths))]
         + WindowsOf(clock[1..], horizonMonths)
  }

  // Each pass comes at most horizonMonths + 1 months after the last one that moved the
  // horizon, `covered` being the last month covered before the run.
  predicate OnTime(covered: Month, clock: seq<Day>, horizonMonths: nat)
    decreases clock
  {
    hide *;
    clock == [] ||
    (MonthOf(clock[0]) <= covered + 1
     && OnTime(Max(covered, MonthOf(clock[0]) + horizonMonths), clock[1..], horizonMonths))
  }

  lemma PassWindow(today: Day, horizonMonths: nat, covered: Month)
    ensures WorkerHorizon(today, horizonMonths) == MonthEnd(MonthOf(today) + horizonMonths)
    ensures Max(MonthEnd(covered), WorkerHorizon(today, horizonMonths)) ==
            MonthEnd(Max(covered, MonthOf(today) + horizonMonths))
    ensures WorkerMonthStart(today) == MonthEnd(MonthOf(today) - 1) + 1
    ensures WorkerMonthStart(today) <= MonthEnd(covered) + 1 <==> MonthOf(today) <= covered + 1
  {
    WorkerWindow(today, horizonMonths);
    MonthEndsOrdered(covered, MonthOf(today) + horizonMonths);
    MonthEndsOrdered(MonthOf(today) - 1, covered);
    hide MonthStart, MonthOf, WorkerMonthStart, WorkerHorizon;
  }

  // No gap means on time, counted in months.
  lemma {:induction false} GapFreeMeansOnTime(covered: Month, clock: seq<Day>, horizonMonths: nat)
    ensures GapFree(MonthEnd(covered), WindowsOf(clock, horizonMonths)) <==> OnTime(covered, clock, horizonMonths)
    decreases |clock|
  {
    hide MonthOf, MonthEnd, WorkerMonthStart, WorkerHorizon, Max;
    if clock != [] {
      PassWindow(clock[0], horizonMonths, covered);
      GapFreeMeansOnTime(Max(covered, MonthOf(clock[0]) + horizonMonths), clock[1..], horizonMonths);
    }
  }

  // Every week holds each weekday.
  lemma WeekHasEachWeekday(dayOfWeek: int, from: Day) returns (d: Day)
    requires 1 <= dayOfWeek <= 7
    ensures from <= d <= from + 6 && IsoWeekday(d) == dayOfWeek
  {
    d := from + (dayOfWeek - IsoWeekday(from)) % 7;
  }

  predicate OpenEnded(row: Schedule, start: Day) {
    1 <= row.dayOfWeek <= 7 && row.validUntil.None? && InWindow(row, start)
  }

  lemma {:induction false} CoveredGrows(covered: Day, windows: seq<Window>)
    ensures covered <= CoveredUntil(covered, windows)
    decreases |windows|
  {
    if windows != [] { CoveredGrows(Max(covered, windows[0].horizon), windows[1..]); }
  }

  // A pass that starts a week or more after the last covered day leaves a gap that no
  // later pass closes.
  lemma LatePassLosesADate(s: RowState, start: Day, covered: Day, windows: seq<Window>) returns (d: Day)
    requires GeneratedThrough(s, start, covered) && OpenEnded(s.row, start)
    requires windows != [] && covered + 7 < windows[0].monthStart <= windows[0].horizon
    ensures d !in Passes(s, windows).known
    ensures d in Dates(s.row, start, CoveredUntil(covered, windows))
  {
    hide Dates, IsoWeekday, StrictlyIncreasing;
    d := WeekHasEachWeekday(s.row.dayOfWeek, covered + 1);
    CoveredGrows(windows[0].horizon, windows[1..]);
    DatesExact(s.row, start, CoveredUntil(covered, windows));
    NeverBackfilled(Pass(s, windows[0]), d, windows[1..]);
  }

  // For a schedule without an end date being on time is also necessary: the passes of
  // a worker generate exactly the one-shot dates if and only if none of them comes
  // more than a month after the last month covered.
  lemma {:induction false} OneShotExactlyWhenOnTime(s: RowState, start: Day, covered: Month, clock: seq<Day>,
                                                    horizonMonths: nat)
    requires GeneratedThrough(s, start, MonthEnd(covered)) && OpenEnded(s.row, start)
    ensures Passes(s, WindowsOf(clock, horizonMonths)).known.Keys
              == (set d | d in Dates(s.row, start, CoveredUntil(MonthEnd(covered), WindowsOf(clock, horizonMonths))))
            <==> OnTime(covered, clock, horizonMonths)
    decreases |clock|
  {
    hide MonthOf, MonthEnd, IsoWeekday, WorkerMonthStart, WorkerHorizon, Pass, GeneratedThrough, Dates, Max;
    var windows := WindowsOf(clock, horizonMonths);
    GapFreeMeansOnTime(covered, clock, horizonMonths);
    if OnTime(covered, clock, horizonMonths) {
      PassesRefineOneShot(s, start, MonthEnd(covered), windows);
    } else {
      PassWindow(clock[0], horizonMonths, covered);
      if covered + 1 < MonthOf(clock[0]) {
        MonthEndsOrdered(covered, MonthOf(clock[0]) - 1);
        MonthEndsOrdered(MonthOf(clock[0]) - 1, MonthOf(clock[0]) + horizonMonths);
        var d := LatePassLosesADate(s, start, MonthEnd(covered), windows);
      } else {
        PassCovers(s, start, MonthEnd(covered), windows[0]);
        var t := Pass(s, windows[0]);
        OneShotExactlyWhenOnTime(t, start, Max(covered, MonthOf(clock[0]) + horizonMonths), clock[1..], horizonMonths);
        DatesIgnoreWatermark(s.row, t.row.generatedUntil, start, CoveredUntil(MonthEnd(covered), windows));
      }
    }
  }
}
