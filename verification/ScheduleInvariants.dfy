// What every run of schedule transactions keeps: the rows of a lineage partition its
// original validity window, and each date of a tutor-change family is generated at most
// once, ever.
module ScheduleInvariants {
  import opened Common
  import opened Calendar
  import opened Generation
  import opened ScheduleVersions

  ghost predicate Tables(db: Db) {
    && db.sessions.Keys == db.schedules.Keys == db.lineage.Keys == db.family.Keys
    && (forall r :: r in db.schedules ==> db.lineage[r] in db.original && db.family[r] < db.nextTag)
    && (forall l :: l in db.original ==> l < db.nextTag)
    && (forall r :: r in db.schedules ==> db.schedules[r].generatedUntil.Some?)
  }

  // No row of a lineage reaches outside the original window, and none overlaps another.
  ghost predicate Disjoint(db: Db)
    requires Tables(db)
  {
    forall r, d :: r in db.schedules && InWindow(db.schedules[r], d) ==>
      && InWindow(db.original[db.lineage[r]], d)
      && forall q :: q in db.schedules && q != r && db.lineage[q] == db.lineage[r] ==> !InWindow(db.schedules[q], d)
  }

  ghost predicate CoveredBy(db: Db, l: Id, d: Day)
    requires Tables(db)
  {
    exists r :: r in db.schedules && db.lineage[r] == l && InWindow(db.schedules[r], d)
  }

  // Every day of the original window belongs to some row of the lineage.
  ghost predicate Covering(db: Db)
    requires Tables(db)
  {
    forall l, d :: l in db.original && InWindow(db.original[l], d) ==> CoveredBy(db, l, d)
  }

  ghost predicate SameFamily(db: Db, r: Id, q: Id)
    requires Tables(db)
  {
    r in db.sessions && q in db.sessions && db.family[r] == db.family[q]
  }

  // A session of row r on day d, removed or not, is at or below the watermark of the
  // row q of its family that the day belongs to, and no other row of the family has a
  // session on that day.
  ghost predicate OnceAt(db: Db, r: Id, q: Id, d: Day)
    requires Tables(db) && SameFamily(db, r, q)
  {
    d in db.sessions[r] ==>
      && (InWindow(db.schedules[q], d) ==> d <= db.schedules[q].generatedUntil.value)
      && (q != r ==> d !in db.sessions[q])
  }

  ghost predicate GeneratedOnce(db: Db)
    requires Tables(db)
  {
    forall r, q, d :: SameFamily(db, r, q) ==> OnceAt(db, r, q, d)
  }

  ghost predicate FamiliesInLineages(db: Db)
    requires Tables(db)
  {
    forall r, q :: r in db.family && q in db.family && db.family[r] == db.family[q] ==> db.lineage[r] == db.lineage[q]
  }

  ghost predicate Inv(db: Db) {
    Tables(db) && Disjoint(db) && Covering(db) && GeneratedOnce(db) && FamiliesInLineages(db)
  }

  // ---- Changes that keep every window ----

  ghost predicate SameWindow(a: Schedule, b: Schedule) {
    a.validFrom == b.validFrom && a.validUntil == b.validUntil && a.dayOfWeek == b.dayOfWeek
  }

  // One row changes, but not its window, and its watermark does not fall.
  ghost predicate RowUpdate(db: Db, id: Id, s: RowState)
    requires Tables(db) && id in db.schedules
  {
    && SameWindow(s.row, db.schedules[id])
    && s.row.generatedUntil.Some? && db.schedules[id].generatedUntil.value <= s.row.generatedUntil.value
    && (forall d :: d in s.known && d !in db.sessions[id] ==>
          InWindow(s.row, d) && db.schedules[id].generatedUntil.value < d <= s.row.generatedUntil.value)
  }

  lemma RowUpdateKeepsPartition(db: Db, id: Id, s: RowState)
    requires Inv(db) && id in db.schedules && RowUpdate(db, id, s)
    ensures Tables(SetRow(db, id, s)) && Disjoint(SetRow(db, id, s)) && Covering(SetRow(db, id, s))
  {
    hide IsoWeekday, GeneratedOnce, FamiliesInLineages;
    var after := SetRow(db, id, s);
    assert forall r, d :: r in after.schedules ==> InWindow(after.schedules[r], d) == InWindow(db.schedules[r], d);
    forall l, d | l in after.original && InWindow(after.original[l], d) ensures CoveredBy(after, l, d) {
      assert CoveredBy(db, l, d);
      var r :| r in db.schedules && db.lineage[r] == l && InWindow(db.schedules[r], d);
      assert InWindow(after.schedules[r], d);
    }
  }

  lemma RowUpdateKeepsFamilies(db: Db, id: Id, s: RowState)
    requires Inv(db) && id in db.schedules && RowUpdate(db, id, s)
    ensures Tables(SetRow(db, id, s))
    ensures FamiliesInLineages(SetRow(db, id, s))
  {
    hide IsoWeekday, Covering, Disjoint, GeneratedOnce, InWindow;
  }

  lemma RowUpdateKeepsOnce(db: Db, id: Id, s: RowState)
    requires Inv(db) && id in db.schedules && RowUpdate(db, id, s)
    requires Tables(SetRow(db, id, s))
    ensures GeneratedOnce(SetRow(db, id, s))
  {
    hide OnceAt, SameFamily, Inv, Tables, RowUpdate, SetRow;
    forall r, q, d | SameFamily(SetRow(db, id, s), r, q) ensures OnceAt(SetRow(db, id, s), r, q, d) {
      OnceAfterUpdate(db, id, s, r, q, d);
    }
  }

  lemma OnceAfterUpdate(db: Db, id: Id, s: RowState, r: Id, q: Id, d: Day)
    requires Inv(db) && id in db.schedules && RowUpdate(db, id, s)
    requires Tables(SetRow(db, id, s)) && SameFamily(SetRow(db, id, s), r, q)
    ensures OnceAt(SetRow(db, id, s), r, q, d)
  {
    hide Fits, LiveScheduled, Covering;
    assert SameFamily(db, r, q) && SameFamily(db, q, r);
    assert db.lineage[r] == db.lineage[q];
    assert OnceAt(db, r, q, d) && OnceAt(db, q, r, d);
    assert InWindow(s.row, d) == InWindow(db.schedules[id], d);
    hide GeneratedOnce;
  }

  lemma RowUpdateKeepsInv(db: Db, id: Id, s: RowState)
    requires Inv(db) && id in db.schedules && RowUpdate(db, id, s)
    ensures Inv(SetRow(db, id, s))
  {
    RowUpdateKeepsPartition(db, id, s);
    RowUpdateKeepsFamilies(db, id, s);
    RowUpdateKeepsOnce(db, id, s);
    hide *;
  }

  // ---- Splitting a row in two ----

  function Split(db: Db, id: Id, newId: Id, kept: RowState, added: RowState, family: nat, nextTag: nat): Db
    requires id in db.lineage
  {
    AddRow(SetRow(db, id, kept), newId, added, db.lineage[id], family).(nextTag := nextTag)
  }

  // The two windows share out the window of the split row.
  ghost predicate SharesWindow(row: Schedule, kept: Schedule, added: Schedule) {
    forall d :: (InWindow(row, d) <==>
        InWindow(kept, d) || InWindow(added, d)) && !(InWindow(kept, d) && InWindow(added, d))
  }

  // The added row joins the family of the split row with its sessions moved, or starts
  // a new family with its own sessions.
  ghost predicate SharesSessions(db: Db, id: Id, kept: RowState, added: RowState, family: nat)
    requires Tables(db) && id in db.schedules
  {
    && kept.row.generatedUntil.Some? && added.row.generatedUntil.Some?
    && db.schedules[id].generatedUntil.value <= kept.row.generatedUntil.value
    && kept.known.Keys <= db.sessions[id].Keys
    && ((family == db.nextTag && forall d :: d in added.known ==> d <= added.row.generatedUntil.value) ||
        (family == db.family[id] && added.row.generatedUntil == db.schedules[id].generatedUntil
         && added.known.Keys <= db.sessions[id].Keys && added.known.Keys !! kept.known.Keys))
  }

  ghost predicate CanSplit(db: Db, id: Id, newId: Id, kept: RowState, added: RowState, family: nat)
    requires Tables(db)
  {
    && id in db.schedules && newId !in db.schedules
    && SharesWindow(db.schedules[id], kept.row, added.row)
    && SharesSessions(db, id, kept, added, family)
  }

  lemma SplitKeepsTables(db: Db, id: Id, newId: Id, kept: RowState, added: RowState, family: nat, nextTag: nat)
    requires Inv(db) && CanSplit(db, id, newId, kept, added, family) && family < nextTag && db.nextTag <= nextTag
    ensures Tables(Split(db, id, newId, kept, added, family, nextTag))
  {
    hide Fits, LiveScheduled, Covering, GeneratedOnce, FamiliesInLineages, Disjoint, SharesWindow;
  }

  lemma SplitKeepsDisjoint(db: Db, id: Id, newId: Id, kept: RowState, added: RowState, family: nat, nextTag: nat)
    requires Inv(db) && CanSplit(db, id, newId, kept, added, family) && family < nextTag && db.nextTag <= nextTag
    requires Tables(Split(db, id, newId, kept, added, family, nextTag))
    ensures Disjoint(Split(db, id, newId, kept, added, family, nextTag))
  {
    assert id in db.lineage;
    hide Inv, Tables, CanSplit, Split, InWindow;
    var after := Split(db, id, newId, kept, added, family, nextTag);
    forall r, d | r in after.schedules && InWindow(after.schedules[r], d)
      ensures r in after.lineage && InWindow(after.original[after.lineage[r]], d)
      ensures forall q :: q in after.schedules && q != r && after.lineage[q] == after.lineage[r] ==>
          !InWindow(after.schedules[q], d)
    {
      DisjointAfter(db, id, newId, kept, added, family, nextTag, r, d);
    }
  }

  lemma DisjointAfter(db: Db, id: Id, newId: Id, kept: RowState, added: RowState, family: nat, nextTag: nat, r: Id,
                      d: Day)
    requires Inv(db) && CanSplit(db, id, newId, kept, added, family)
    requires Tables(Split(db, id, newId, kept, added, family, nextTag))
    requires var after := Split(db, id, newId, kept, added, family, nextTag);
             r in after.schedules && InWindow(after.schedules[r], d)
    ensures var after := Split(db, id, newId, kept, added, family, nextTag);
            && r in after.lineage && after.lineage[r] in after.original && InWindow(after.original[after.lineage[r]], d)
            && forall q :: q in after.schedules && q != r && after.lineage[q] == after.lineage[r] ==>
                !InWindow(after.schedules[q], d)
  {
    hide InWindow, Fits, LiveScheduled, Covering, GeneratedOnce, FamiliesInLineages, SharesSessions;
    // The row whose window held the day before the split.
    var r0 := if r == newId then id else r;
    assert InWindow(db.schedules[r0], d);
  }

  lemma SplitKeepsCovering(db: Db, id: Id, newId: Id, kept: RowState, added: RowState, family: nat, nextTag: nat)
    requires Inv(db) && CanSplit(db, id, newId, kept, added, family) && family < nextTag && db.nextTag <= nextTag
    requires Tables(Split(db, id, newId, kept, added, family, nextTag))
    ensures Covering(Split(db, id, newId, kept, added, family, nextTag))
  {
    hide InWindow, Fits, LiveScheduled, Disjoint, GeneratedOnce, FamiliesInLineages, SharesSessions;
    var after := Split(db, id, newId, kept, added, family, nextTag);
    forall l, d | l in after.original && InWindow(after.original[l], d) ensures CoveredBy(after, l, d) {
      assert CoveredBy(db, l, d);
      var r :| r in db.schedules && db.lineage[r] == l && InWindow(db.schedules[r], d);
      if r == id {
        assert InWindow(after.schedules[id], d) || InWindow(after.schedules[newId], d);
      } else {
        assert InWindow(after.schedules[r], d);
      }
    }
  }

  lemma SplitKeepsFamilies(db: Db, id: Id, newId: Id, kept: RowState, added: RowState, family: nat, nextTag: nat)
    requires Inv(db) && CanSplit(db, id, newId, kept, added, family) && family < nextTag && db.nextTag <= nextTag
    requires Tables(Split(db, id, newId, kept, added, family, nextTag))
    ensures FamiliesInLineages(Split(db, id, newId, kept, added, family, nextTag))
  {
    hide InWindow, Fits, LiveScheduled, Disjoint, Covering, GeneratedOnce, SharesWindow;
  }

  lemma SplitKeepsOnce(db: Db, id: Id, newId: Id, kept: RowState, added: RowState, family: nat, nextTag: nat)
    requires Inv(db) && CanSplit(db, id, newId, kept, added, family) && family < nextTag && db.nextTag <= nextTag
    requires Tables(Split(db, id, newId, kept, added, family, nextTag))
    ensures GeneratedOnce(Split(db, id, newId, kept, added, family, nextTag))
  {
    assert id in db.lineage;
    hide OnceAt, SameFamily, CanSplit, Split, Inv, Tables;
    var after := Split(db, id, newId, kept, added, family, nextTag);
    forall r, q, d | SameFamily(after, r, q) ensures OnceAt(after, r, q, d) {
      if family == db.family[id] {
        OnceAfterMove(db, id, newId, kept, added, family, nextTag, r, q, d);
      } else {
        OnceAfterStart(db, id, newId, kept, added, family, nextTag, r, q, d);
      }
    }
  }

  lemma OnceAfterMove(db: Db, id: Id, newId: Id, kept: RowState, added: RowState, family: nat, nextTag: nat, r: Id,
                      q: Id, d: Day)
    requires Inv(db) && CanSplit(db, id, newId, kept, added, family) && family == db.family[id]
    requires Tables(Split(db, id, newId, kept, added, family, nextTag))
    requires SameFamily(Split(db, id, newId, kept, added, family, nextTag), r, q)
    ensures OnceAt(Split(db, id, newId, kept, added, family, nextTag), r, q, d)
  {
    hide InWindow, Fits, LiveScheduled, Disjoint, Covering, FamiliesInLineages;
    // The rows that held these sessions before the split.
    var r0 := if r == newId then id else r;
    var q0 := if q == newId then id else q;
    assert SameFamily(db, r0, q0);
    assert OnceAt(db, r0, q0, d);
    hide GeneratedOnce;
  }

  lemma OnceAfterStart(db: Db, id: Id, newId: Id, kept: RowState, added: RowState, family: nat, nextTag: nat, r: Id,
                       q: Id, d: Day)
    requires Inv(db) && CanSplit(db, id, newId, kept, added, family) && family != db.family[id]
    requires Tables(Split(db, id, newId, kept, added, family, nextTag))
    requires SameFamily(Split(db, id, newId, kept, added, family, nextTag), r, q)
    ensures OnceAt(Split(db, id, newId, kept, added, family, nextTag), r, q, d)
  {
    hide InWindow, Fits, LiveScheduled, Disjoint, Covering, FamiliesInLineages;
    assert r == newId <==> q == newId;
    if r != newId {
      assert SameFamily(db, r, q);
      assert OnceAt(db, r, q, d);
    }
    hide GeneratedOnce;
  }

  lemma SplitKeepsInv(db: Db, id: Id, newId: Id, kept: RowState, added: RowState, family: nat, nextTag: nat)
    requires Inv(db) && CanSplit(db, id, newId, kept, added, family) && family < nextTag && db.nextTag <= nextTag
    ensures Inv(Split(db, id, newId, kept, added, family, nextTag))
  {
    SplitKeepsTables(db, id, newId, kept, added, family, nextTag);
    SplitKeepsDisjoint(db, id, newId, kept, added, family, nextTag);
    SplitKeepsCovering(db, id, newId, kept, added, family, nextTag);
    SplitKeepsFamilies(db, id, newId, kept, added, family, nextTag);
    SplitKeepsOnce(db, id, newId, kept, added, family, nextTag);
    hide *;
  }

  // ---- Adding the first row of a lineage ----

  function Begin(db: Db, id: Id, s: RowState): Db {
    AddRow(db, id, s, db.nextTag, db.nextTag).(original := db.original[db.nextTag := s.row], nextTag := db.nextTag + 1)
  }

  ghost predicate CanBegin(db: Db, id: Id, s: RowState) {
    && id !in db.schedules && s.row.generatedUntil.Some?
    && (forall d :: d in s.known ==> Fits(s.row, d) && d <= s.row.generatedUntil.value)
  }

  lemma BeginKeepsTables(db: Db, id: Id, s: RowState)
    requires Inv(db) && CanBegin(db, id, s)
    ensures Tables(Begin(db, id, s))
  {
    hide Fits, LiveScheduled, Covering, GeneratedOnce, FamiliesInLineages, Disjoint;
  }

  lemma BeginKeepsDisjoint(db: Db, id: Id, s: RowState)
    requires Inv(db) && CanBegin(db, id, s) && Tables(Begin(db, id, s))
    ensures Disjoint(Begin(db, id, s))
  {
    hide InWindow, Fits, LiveScheduled, Covering, GeneratedOnce, FamiliesInLineages;
    var after := Begin(db, id, s);
    forall r, d | r in after.schedules && InWindow(after.schedules[r], d)
      ensures InWindow(after.original[after.lineage[r]], d)
      ensures forall q :: q in after.schedules && q != r && after.lineage[q] == after.lineage[r] ==>
          !InWindow(after.schedules[q], d)
    {
      assert r != id ==> InWindow(db.schedules[r], d);
    }
  }

  lemma BeginKeepsCovering(db: Db, id: Id, s: RowState)
    requires Inv(db) && CanBegin(db, id, s) && Tables(Begin(db, id, s))
    ensures Covering(Begin(db, id, s))
  {
    hide InWindow, Fits, LiveScheduled, Disjoint, GeneratedOnce, FamiliesInLineages;
    var after := Begin(db, id, s);
    forall l, d | l in after.original && InWindow(after.original[l], d) ensures CoveredBy(after, l, d) {
      if l == db.nextTag {
        assert InWindow(after.schedules[id], d);
      } else {
        assert CoveredBy(db, l, d);
        var r :| r in db.schedules && db.lineage[r] == l && InWindow(db.schedules[r], d);
        assert InWindow(after.schedules[r], d);
      }
    }
  }

  lemma BeginKeepsFamilies(db: Db, id: Id, s: RowState)
    requires Inv(db) && CanBegin(db, id, s) && Tables(Begin(db, id, s))
    ensures FamiliesInLineages(Begin(db, id, s))
  {
    hide InWindow, IsoWeekday, Fits, LiveScheduled, Disjoint, Covering, GeneratedOnce;
  }

  lemma BeginKeepsOnce(db: Db, id: Id, s: RowState)
    requires Inv(db) && CanBegin(db, id, s) && Tables(Begin(db, id, s))
    ensures GeneratedOnce(Begin(db, id, s))
  {
    hide InWindow, Fits, LiveScheduled, Disjoint, Covering, FamiliesInLineages;
    var after := Begin(db, id, s);
    forall r, q, d | SameFamily(after, r, q) ensures OnceAt(after, r, q, d) {
      assert r == id <==> q == id;
      if r != id {
        assert SameFamily(db, r, q);
        assert OnceAt(db, r, q, d);
      }
    }
  }

  lemma BeginKeepsInv(db: Db, id: Id, s: RowState)
    requires Inv(db) && CanBegin(db, id, s)
    ensures Inv(Begin(db, id, s))
  {
    BeginKeepsTables(db, id, s);
    BeginKeepsDisjoint(db, id, s);
    BeginKeepsCovering(db, id, s);
    BeginKeepsFamilies(db, id, s);
    BeginKeepsOnce(db, id, s);
    hide *;
  }

  // ---- Each transaction ----

  lemma CreateKeepsInv(db: Db, id: Id, item: NewSchedule, now: Day)
    requires Inv(db)
    ensures Inv(Committed(db, CreateSchedule(db, id, item, now)))
  {
    hide Inv, IsoWeekday, CheckNew, EndOfMonth, InWindow;
    var r := CreateSchedule(db, id, item, now);
    if r.Ok? {
      assert r.value == Begin(db, id, RowOf(r.value, id));
      BeginKeepsInv(db, id, RowOf(r.value, id));
    }
  }

  lemma GenerateIsRowUpdate(db: Db, id: Id, w: Window)
    requires Inv(db) && DueRow(db, id, w.horizon)
    ensures RowUpdate(db, id, Generate(RowOf(db, id), w.monthStart, w.horizon))
  {
    hide IsoWeekday, Disjoint, Covering, GeneratedOnce, FamiliesInLineages, Visible, InWindow, LiveScheduled;
    var s := RowOf(db, id);
    var t := Generate(s, w.monthStart, w.horizon);
    GenerateIsMonotone(s, w.monthStart, w.horizon);
    WindowOfMarked(s.row, w.horizon);
    hide Generate, Fill, NewSession;
  }

  lemma WindowOfMarked(row: Schedule, until: Day)
    ensures forall d :: InWindow(MarkUntil(row, until), d) == InWindow(row, d)
  {
  }

  lemma WorkerKeepsInv(db: Db, id: Id, w: Window)
    requires Inv(db)
    ensures Inv(WorkerStep(db, id, w))
  {
    if DueRow(db, id, w.horizon) {
      GenerateIsRowUpdate(db, id, w);
      RowUpdateKeepsInv(db, id, Generate(RowOf(db, id), w.monthStart, w.horizon));
    }
    hide *;
  }

  // Sessions that change where they are keep the invariant, whatever they become.
  lemma SessionsUpdateKeepsInv(db: Db, id: Id, s: RowState)
    requires Inv(db) && id in db.schedules
    requires SameWindow(s.row, db.schedules[id]) && s.row.generatedUntil == db.schedules[id].generatedUntil
    requires s.known.Keys == db.sessions[id].Keys
    ensures Inv(SetRow(db, id, s))
  {
    assert RowUpdate(db, id, s) by {
      hide IsoWeekday, Disjoint, Covering, GeneratedOnce, FamiliesInLineages, LiveScheduled;
    }
    RowUpdateKeepsInv(db, id, s);
    hide *;
  }

  lemma SetSessionKeepsInv(db: Db, id: Id, date: Day, s: Session)
    requires Inv(db) && SessionFound(db, id, date)
    ensures Inv(SetSession(db, id, date, s))
  {
    hide Inv, LiveScheduled, Tables;
    var t := RowState(db.schedules[id], db.sessions[id][date := s]);
    SessionsUpdateKeepsInv(db, id, t);
    assert SetSession(db, id, date, s) == SetRow(db, id, t);
  }

  // No field the invariant reads.
  lemma OneOffsKeepInv(db: Db, oneOffs: seq<OneOff>, deleted: set<Id>, live: set<Id>)
    requires Inv(db)
    ensures Inv(db.(oneOffs := oneOffs, deletedClasses := deleted, liveEnrollments := live))
  {
    hide InWindow, Fits, LiveScheduled;
    var after := db.(oneOffs := oneOffs, deletedClasses := deleted, liveEnrollments := live);
    assert Tables(after);
    assert Covering(after) by {
      hide Disjoint, GeneratedOnce, FamiliesInLineages;
      forall l, d | l in after.original && InWindow(after.original[l], d) ensures CoveredBy(after, l, d) {
        assert CoveredBy(db, l, d);
      }
    }
    assert Disjoint(after) by { hide Covering, GeneratedOnce, FamiliesInLineages; }
    assert GeneratedOnce(after) by {
      hide Covering, Disjoint, FamiliesInLineages;
      forall r, q, d | SameFamily(after, r, q) ensures OnceAt(after, r, q, d) {
        assert SameFamily(db, r, q);
        assert OnceAt(db, r, q, d);
      }
    }
    assert FamiliesInLineages(after) by { hide Covering, Disjoint, GeneratedOnce; }
    hide *;
  }

  lemma WindowSplits(row: Schedule, effective: Day, added: Schedule)
    requires CoversReplacement(row, effective)
    requires added.validFrom == Some(effective) && added.validUntil == row.validUntil
    ensures SharesWindow(row, row.(validUntil := Some(effective - 1)), added)
  {
  }

  lemma InitialSessionsFit(row: Schedule, from: Day)
    ensures forall d :: d in InitialSessions(row, from) ==> Fits(row, d) && d <= EndOfMonth(from)
  {
    hide EndOfMonth, IsoWeekday, InWindow, NewSession;
  }

  lemma PermanentKeepsInv(db: Db, id: Id, newId: Id, req: PermanentChange, today: Day, occupied: nat)
    requires Inv(db)
    ensures Inv(Committed(db, ChangePermanent(db, id, newId, req, today, occupied)))
  {
    if ChangePermanent(db, id, newId, req, today, occupied).Ok? {
      PermanentSplits(db, id, newId, req, today, occupied);
    }
    hide *;
  }

  lemma PermanentSplits(db: Db, id: Id, newId: Id, req: PermanentChange, today: Day, occupied: nat)
    requires Inv(db) && ChangePermanent(db, id, newId, req, today, occupied).Ok?
    ensures Inv(ChangePermanent(db, id, newId, req, today, occupied).value)
  {
    hide IsoWeekday, EndOfMonth, InitialSessions, Inv, CheckChange, SharesWindow, SharesSessions, Cancel;
    var effective := req.effective.value;
    var row, known := db.schedules[id], db.sessions[id];
    var added := Replacement(row, req);
    var kept := RowState(row.(validUntil := Some(effective - 1)), Cancel(known, effective));
    var started := RowState(added, InitialSessions(added, effective));
    WindowSplits(row, effective, added);
    CancelShares(db, id, effective, added);
    assert Tables(db) && db.lineage[id] == LineageOf(db, id) by { InvTables(db); }
    SplitKeepsInv(db, id, newId, kept, started, db.nextTag, db.nextTag + 1);
    assert ChangePermanent(db, id, newId, req, today, occupied).value == Split(db, id, newId, kept, started,
        db.nextTag, db.nextTag + 1);
  }

  lemma ChangeFound(db: Db, id: Id, newId: Id, req: PermanentChange, today: Day, occupied: nat)
    requires ChangePermanent(db, id, newId, req, today, occupied).Ok?
    ensures Found(db, id) && req.effective.Some? && newId !in db.schedules
    ensures InWindow(db.schedules[id], req.effective.value)
  {
  }

  lemma InvTables(db: Db)
    requires Inv(db)
    ensures Tables(db)
  {
  }

  lemma CancelShares(db: Db, id: Id, effective: Day, added: Schedule)
    requires Inv(db) && id in db.schedules && added.generatedUntil == Some(EndOfMonth(effective))
    ensures SharesSessions(db, id,
                           RowState(db.schedules[id].(validUntil := Some(effective - 1)),
                                    Cancel(db.sessions[id], effective)),
                           RowState(added, InitialSessions(added, effective)), db.nextTag)
  {
    hide IsoWeekday, EndOfMonth, InitialSessions, Disjoint, Covering, GeneratedOnce, FamiliesInLineages;
    InitialSessionsFit(added, effective);
  }

  lemma TutorKeepsInv(db: Db, id: Id, newId: Id, tutor: Id, tutorActive: bool, effective: Day)
    requires Inv(db)
    ensures Inv(Committed(db, ChangeTutor(db, id, newId, tutor, tutorActive, effective)))
  {
    var r := ChangeTutor(db, id, newId, tutor, tutorActive, effective);
    if CheckTutor(db, id, tutorActive, effective).None? {
      match TutorChangeKind(db.schedules[id], tutor)
      case KeepRow =>
      case AssignInPlace =>
        SessionsUpdateKeepsInv(db, id,
                               RowState(db.schedules[id].(tutor := Some(tutor)),
                                        SetTutor(db.sessions[id], effective, tutor))) by {
          hide InWindow, IsoWeekday, Disjoint, Covering, GeneratedOnce, FamiliesInLineages;
        }
      case SplitRow =>
        if r.Ok? { TutorSplits(db, id, newId, tutor, tutorActive, effective); }
    }
    hide *;
  }

  lemma TutorSplits(db: Db, id: Id, newId: Id, tutor: Id, tutorActive: bool, effective: Day)
    requires Inv(db) && ChangeTutor(db, id, newId, tutor, tutorActive, effective).Ok?
    requires TutorChangeKind(db.schedules[id], tutor) == SplitRow
    ensures Inv(ChangeTutor(db, id, newId, tutor, tutorActive, effective).value)
  {
    hide IsoWeekday, Disjoint, Covering, GeneratedOnce, FamiliesInLineages;
    var row, known := db.schedules[id], db.sessions[id];
    var kept := RowState(row.(validUntil := Some(effective - 1)), Staying(known, effective));
    var started := RowState(row.(tutor := Some(tutor), validFrom := Some(effective)), Moved(known, effective, tutor));
    WindowSplits(row, effective, started.row);
    assert CanSplit(db, id, newId, kept, started, db.family[id]) by { hide SharesWindow; }
    SplitKeepsInv(db, id, newId, kept, started, db.family[id], db.nextTag);
    hide Inv;
    assert ChangeTutor(db, id, newId, tutor, tutorActive, effective).value == Split(db, id, newId, kept, started,
        db.family[id], db.nextTag);
  }

  lemma DeleteScheduleKeepsInv(db: Db, id: Id, today: Day, occupied: nat)
    requires Inv(db)
    ensures Inv(Committed(db, DeleteSchedule(db, id, today, occupied)))
  {
    if DeleteSchedule(db, id, today, occupied).Ok? {
      SessionsUpdateKeepsInv(db, id, RowState(db.schedules[id].(deleted := true), Cancel(db.sessions[id], today))) by {
        hide InWindow, IsoWeekday, Disjoint, Covering, GeneratedOnce, FamiliesInLineages;
      }
    }
    hide *;
  }

  // Rows keep their windows and watermarks, and no session is added or taken away.
  lemma SameShapeKeepsInv(db: Db, after: Db)
    requires Inv(db) && Tables(after) && after.lineage == db.lineage && after.family == db.family
    requires after.original == db.original && after.schedules.Keys == db.schedules.Keys
    requires forall r :: r in db.schedules ==>
               && SameWindow(after.schedules[r], db.schedules[r])
               && after.schedules[r].generatedUntil == db.schedules[r].generatedUntil
               && after.sessions[r].Keys == db.sessions[r].Keys
    ensures Inv(after)
  {
    hide IsoWeekday;
    assert forall r, d :: r in db.schedules ==> InWindow(after.schedules[r], d) == InWindow(db.schedules[r], d);
    hide InWindow;
    assert Disjoint(after) && FamiliesInLineages(after) by { hide Covering, GeneratedOnce; }
    forall l, d | l in after.original && InWindow(after.original[l], d) ensures CoveredBy(after, l, d) {
      assert CoveredBy(db, l, d);
    }
    hide Covering, Disjoint;
    forall r, q, d | SameFamily(after, r, q) ensures OnceAt(after, r, q, d) {
      assert SameFamily(db, r, q);
      assert OnceAt(db, r, q, d);
    }
  }

  lemma DeleteClassKeepsInv(db: Db, class_: Id, active: nat, today: Day)
    requires Inv(db)
    ensures Inv(Committed(db, DeleteClass(db, class_, active, today)))
  {
    hide Disjoint, Covering, GeneratedOnce, FamiliesInLineages, LiveScheduled;
    var r := DeleteClass(db, class_, active, today);
    if r.Ok? {
      SameShapeKeepsInv(db, r.value);
    }
  }

  lemma RescheduleKeepsInv(db: Db, id: Id, date: Day, newDate: Day, start: TimeOfDay, end: TimeOfDay)
    requires Inv(db)
    ensures Inv(Committed(db, Reschedule(db, id, date, newDate, start, end)))
  {
    hide Inv;
    if SessionFound(db, id, date) {
      var s := db.sessions[id][date].(status := Rescheduled);
      SetSessionKeepsInv(db, id, date, s);
      OneOffsKeepInv(SetSession(db, id, date, s), Reschedule(db, id, date, newDate, start, end).value.oneOffs,
                     db.deletedClasses, db.liveEnrollments);
    }
  }

  lemma SessionOpKeepsInv(db: Db, op: Op)
    requires Inv(db) && (op.OpSubstitute? || op.OpDeleteSession? || op.OpAttend?)
    ensures Inv(Apply(db, op))
  {
    hide Inv;
    if SessionFound(db, op.id, op.date) {
      var s := db.sessions[op.id][op.date];
      if op.OpSubstitute? {
        SetSessionKeepsInv(db, op.id, op.date, s.(tutor := op.tutor));
      } else if op.OpDeleteSession? {
        SetSessionKeepsInv(db, op.id, op.date, s.(deleted := true));
      } else {
        SetSessionKeepsInv(db, op.id, op.date, s.(attended := true));
      }
    }
  }

  // A session written back to the row it was read from, wherever it is now.
  lemma SaveKeepsInv(db: Db, id: Id, at: Id, date: Day, copy: Session)
    requires Inv(db)
    ensures Inv(SaveSession(db, id, at, date, copy))
  {
    hide InWindow, Fits, LiveScheduled;
    var after := SaveSession(db, id, at, date, copy);
    if CanSave(db, id, at, date) {
      assert Tables(after) && Disjoint(after) && FamiliesInLineages(after) by { hide Covering, GeneratedOnce; }
      SameWindowsCover(db, after);
      forall r, q, d | SameFamily(after, r, q) ensures OnceAt(after, r, q, d) {
        OnceAfterSave(db, id, at, date, copy, r, q, d);
      }
    }
    hide *;
  }

  lemma SameWindowsCover(db: Db, after: Db)
    requires Tables(db) && Covering(db) && Tables(after)
    requires after.schedules == db.schedules && after.lineage == db.lineage && after.original == db.original
    ensures Covering(after)
  {
    hide InWindow;
    forall l, d | l in after.original && InWindow(after.original[l], d) ensures CoveredBy(after, l, d) {
      assert CoveredBy(db, l, d);
    }
  }

  lemma OnceAfterSave(db: Db, id: Id, at: Id, date: Day, copy: Session, r: Id, q: Id, d: Day)
    requires Inv(db) && CanSave(db, id, at, date) && Tables(SaveSession(db, id, at, date, copy))
    requires SameFamily(SaveSession(db, id, at, date, copy), r, q)
    ensures OnceAt(SaveSession(db, id, at, date, copy), r, q, d)
  {
    hide InWindow, Fits, LiveScheduled, Disjoint, Covering, FamiliesInLineages;
    // The row that held the session before the save.
    var r0 := if r == id && d == date then at else r;
    assert SameFamily(db, r0, q);
    assert OnceAt(db, r0, q, d);
    if db.family[r] == db.family[at] {
      assert SameFamily(db, at, r) && SameFamily(db, at, q);
      assert OnceAt(db, at, r, d) && OnceAt(db, at, q, d);
    }
    hide GeneratedOnce;
  }

  lemma StaleKeepsInv(db: Db, op: Op)
    requires Inv(db) && (op.OpStaleReschedule? || op.OpStaleSubstitute?)
    ensures Inv(Apply(db, op))
  {
    hide Inv, SaveSession;
    if op.OpStaleSubstitute? {
      SaveKeepsInv(db, op.id, op.at, op.date, op.earlier.(tutor := op.tutor));
    } else if CanSave(db, op.id, op.at, op.date) {
      var saved := SaveSession(db, op.id, op.at, op.date, op.earlier.(status := Rescheduled));
      SaveKeepsInv(db, op.id, op.at, op.date, op.earlier.(status := Rescheduled));
      OneOffsKeepInv(saved, Apply(db, op).oneOffs, saved.deletedClasses, saved.liveEnrollments);
    }
  }

  lemma ApplyKeepsInv(db: Db, op: Op)
    requires Inv(db)
    ensures Inv(Apply(db, op))
  {
    hide Inv, CreateSchedule, WorkerStep, ChangePermanent, ChangeTutor, Reschedule, Substitute, DeleteSession,
         DeleteSchedule, DeleteClass, Attend, StaleReschedule, StaleSubstitute;
    match op
    case OpCreate(id, item, now) => CreateKeepsInv(db, id, item, now);
    case OpWorker(id, window) => WorkerKeepsInv(db, id, window);
    case OpPermanent(id, newId, req, today, occupied) => PermanentKeepsInv(db, id, newId, req, today, occupied);
    case OpTutor(id, newId, tutor, active, effective) => TutorKeepsInv(db, id, newId, tutor, active, effective);
    case OpReschedule(id, date, newDate, start, end) => RescheduleKeepsInv(db, id, date, newDate, start, end);
    case OpDeleteSchedule(id, today, occupied) => DeleteScheduleKeepsInv(db, id, today, occupied);
    case OpDeleteClass(class_, active, today) => DeleteClassKeepsInv(db, class_, active, today);
    case OpStaleReschedule(_, _, _, _, _, _, _) => StaleKeepsInv(db, op);
    case OpStaleSubstitute(_, _, _, _, _) => StaleKeepsInv(db, op);
    case OpEnvironment(deleted, live) => OneOffsKeepInv(db, db.oneOffs, deleted, live);
    case _ => SessionOpKeepsInv(db, op);
  }

  // Every reachable database satisfies the invariant, saves of earlier copies included.
  lemma {:induction false} RunKeepsInv(db: Db, ops: seq<Op>)
    requires Inv(db)
    ensures Inv(Run(db, ops))
    decreases |ops|
  {
    hide Inv, Apply;
    if ops != [] {
      ApplyKeepsInv(db, ops[0]);
      RunKeepsInv(Apply(db, ops[0]), ops[1..]);
    }
  }
}
