// One pass of the session generation worker over the schedules.
module SessionWorker {
  import opened Common
  import opened Calendar
  import opened Generation
  import opened ScheduleVersions
  import opened ScheduleInvariants
  import opened ScheduleTheorems
  import opened ScheduleOutcomes

  // Schedules due at the horizon with an id above the cursor.
  function DueAbove(db: Db, horizon: Day, cursor: Id): set<Id> {
    set id | id in db.schedules && cursor < id && DueRow(db, id, horizon)
  }

  // What a pass does to the tables, row by row: rows in `done` are generated through
  // the horizon, every other row is left alone.
  function AfterPass(db: Db, done: set<Id>, w: Window): Db {
    db.(schedules := map id | id in db.schedules :: if id in done then MarkUntil(db.schedules[id], w.horizon)
                                                    else db.schedules[id],
        sessions := map id | id in db.sessions :: if id in done && id in db.schedules
                                                  then Generate(RowState(db.schedules[id], db.sessions[id]),
                                                                w.monthStart, w.horizon).known
                                                  else db.sessions[id])
  }

  lemma AfterPassStep(db: Db, done: set<Id>, id: Id, w: Window)
    requires id !in done && Known(db, id)
    ensures Known(AfterPass(db, done, w), id) && RowOf(AfterPass(db, done, w), id) == RowOf(db, id)
    ensures AfterPass(db, done + {id}, w) == SetRow(AfterPass(db, done, w), id,
                                                    Generate(RowOf(db, id), w.monthStart, w.horizon))
  {
    hide Fill, FillFrom, MarkUntil;
  }

  lemma AfterPassNothing(db: Db, w: Window)
    ensures AfterPass(db, {}, w) == db
  {
    hide Fill, FillFrom, MarkUntil;
    assert AfterPass(db, {}, w).schedules == db.schedules;
    assert AfterPass(db, {}, w).sessions == db.sessions;
  }

  lemma DueAfterPass(db: Db, done: set<Id>, id: Id, w: Window)
    ensures DueRow(AfterPass(db, done, w), id, w.horizon) <==> DueRow(db, id, w.horizon) && id !in done
  {
    hide Fill, FillFrom;
  }

  // What the outside decides about one turn of a pass: the transactions that others commit
  // before it, the rows they hold when it looks for the next one, and whether its own
  // transaction rolls back.
  datatype Turn = Turn(changes: seq<Op>, locked: set<Id>, fails: bool)

  datatype PassResult = PassResult(schedules: nat, sessionsCreated: int, failed: nat)

  function TotalSessions(sessions: map<Id, map<Day, Session>>, ids: seq<Id>): nat {
    if ids == [] then 0
    else TotalSessions(sessions, ids[..|ids| - 1])
         + if ids[|ids| - 1] in sessions then |sessions[ids[|ids| - 1]]| else 0
  }

  lemma {:induction false} TotalOfOthers(before: map<Id, map<Day, Session>>, id: Id, known: map<Day, Session>,
                                         ids: seq<Id>)
    requires id !in ids
    ensures TotalSessions(before[id := known], ids) == TotalSessions(before, ids)
    decreases |ids|
  {
    if ids != [] { TotalOfOthers(before, id, known, ids[..|ids| - 1]); }
  }

  function Cursor(visited: seq<Id>, k: nat): Id
    requires k <= |visited|
  {
    if k == 0 then Nil else visited[k - 1]
  }

  // The tables after k turns, and what turn k finds.
  function After(db: Db, turns: seq<Turn>, visited: seq<Id>, w: Window, k: nat): Db
    requires k <= |visited| && k <= |turns|
    decreases k, 0
  {
    if k == 0 then db
    else
      var found := Before(db, turns, visited, w, k - 1);
      if turns[k - 1].fails then found else WorkerStep(found, visited[k - 1], w)
  }

  function Before(db: Db, turns: seq<Turn>, visited: seq<Id>, w: Window, k: nat): Db
    requires k <= |visited| && k < |turns|
    decreases k, 1
  {
    Run(After(db, turns, visited, w, k), turns[k].changes)
  }

  // Turn k takes the least schedule that is due above the one before it and not locked then.
  ghost predicate Chosen(db: Db, turns: seq<Turn>, visited: seq<Id>, w: Window, k: nat)
    requires k < |visited| <= |turns|
  {
    var open := DueAbove(Before(db, turns, visited, w, k), w.horizon, Cursor(visited, k)) - turns[k].locked;
    visited[k] in open && forall id :: id in open ==> visited[k] <= id
  }

  ghost predicate Visits(db: Db, turns: seq<Turn>, visited: seq<Id>, w: Window) {
    |visited| <= |turns| && forall k :: 0 <= k < |visited| ==> Chosen(db, turns, visited, w, k)
  }

  // The turn after the last visit found nothing to lock.
  ghost predicate Finished(db: Db, turns: seq<Turn>, visited: seq<Id>, w: Window)
    requires |visited| < |turns|
  {
    var n := |visited|;
    DueAbove(Before(db, turns, visited, w, n), w.horizon, Cursor(visited, n)) <= turns[n].locked
  }

  function Failures(turns: seq<Turn>): nat {
    if turns == [] then 0 else Failures(turns[..|turns| - 1]) + if turns[|turns| - 1].fails then 1 else 0
  }

  lemma {:induction false} FailuresExactly(turns: seq<Turn>)
    ensures Failures(turns) == |set k | 0 <= k < |turns| && turns[k].fails|
    decreases |turns|
  {
    if turns != [] {
      var n := |turns| - 1;
      FailuresExactly(turns[..n]);
      var before := set k | 0 <= k < n && turns[..n][k].fails;
      assert (set k | 0 <= k < |turns| && turns[k].fails) == before + if turns[n].fails then {n} else {};
    }
  }

  function SessionCount(db: Db, id: Id): nat {
    if id in db.sessions then |db.sessions[id]| else 0
  }

  // The sessions that the committed ones of the first k visits added.
  function Created(db: Db, turns: seq<Turn>, visited: seq<Id>, w: Window, k: nat): int
    requires k <= |visited| && k <= |turns|
  {
    if k == 0 then 0
    else
      Created(db, turns, visited, w, k - 1) + SessionCount(After(db, turns, visited, w, k), visited[k - 1])
      - SessionCount(Before(db, turns, visited, w, k - 1), visited[k - 1])
  }

  class SessionGenerationWorker {
    const horizonMonths: nat
    var db: Db

    constructor (horizonMonths: int, db: Db)
      ensures this.horizonMonths == (if horizonMonths < 1 then 1 else horizonMonths) && this.db == db
    {
      this.horizonMonths := if horizonMonths < 1 then 1 else horizonMonths;
      this.db := db;
    }

    // ORDER BY id LIMIT 1 FOR UPDATE SKIP LOCKED: the least due schedule above the
    // cursor that no other transaction has locked.
    method LockNextScheduleDue(horizon: Day, cursor: Id, locked: set<Id>) returns (next: Option<Id>)
      ensures next.None? ==> DueAbove(db, horizon, cursor) <= locked
      ensures next.Some? ==> next.value in DueAbove(db, horizon, cursor) - locked
      ensures next.Some? ==> forall id :: id in DueAbove(db, horizon, cursor) - locked ==> next.value <= id
      ensures next.Some? ==>
                && next.value in db.schedules && !db.schedules[next.value].deleted
                && db.schedules[next.value].class_ !in db.deletedClasses
                && (db.schedules[next.value].enrollment.Some? ==>
                      db.schedules[next.value].enrollment.value in db.liveEnrollments)
      ensures forall id :: cursor < id && id !in locked && AwaitsLessons(db, id, horizon) ==>
                next.Some? && next.value <= id
    {
      forall id ensures DueRow(db, id, horizon) <==> AwaitsLessons(db, id, horizon) { DueExactly(db, id, horizon); }
      hide DueRow;
      var rest := DueAbove(db, horizon, cursor) - locked;
      if rest == {} {
        forall id | id in DueAbove(db, horizon, cursor) ensures id in locked {
          assert id !in rest;
        }
        return None;
      }
      var least :| least in rest;
      var seen := {least};
      while seen != rest
        invariant least in seen && seen <= rest && forall id :: id in seen ==> least <= id
        decreases |rest - seen|
      {
        assert exists id :: id in rest && id !in seen;
        var id :| id in rest && id !in seen;
        if id < least { least := id; }
        seen := seen + {id};
      }
      forall id | cursor < id && id !in locked && AwaitsLessons(db, id, horizon) ensures least <= id {
        assert id in rest;
      }
      return Some(least);
    }

    // A pass at `today`, with others at work between its transactions. It ends when nothing is
    // left to lock, or when the turns are over because the context was cancelled or the lookup
    // failed.
    method RunOnce(today: Day, turns: seq<Turn>) returns (result: PassResult, visited: seq<Id>)
      modifies this`db
      ensures
        var w := Window(WorkerMonthStart(today), WorkerHorizon(today, horizonMonths));
        && Visits(old(db), turns, visited, w)
        && (|visited| < |turns| ==>
              Finished(old(db), turns, visited, w) && db == Before(old(db), turns, visited, w, |visited|))
        && (|visited| == |turns| ==> db == After(old(db), turns, visited, w, |visited|))
        && result.schedules == |visited|
        && result.failed == Failures(turns[..|visited|])
        && result.sessionsCreated == Created(old(db), turns, visited, w, |visited|)
    {
      hide WorkerMonthStart, WorkerHorizon, DueRow, Generate, After, Visits, Failures, Created, Run, WorkerStep;
      var w := Window(WorkerMonthStart(today), WorkerHorizon(today, horizonMonths));
      ghost var start := db;
      var cursor: Id := Nil;
      result, visited := PassResult(0, 0, 0), [];
      NoVisits(start, turns, w);
      while |visited| < |turns|
        invariant Visits(start, turns, visited, w) && |visited| <= |turns|
        invariant cursor == Cursor(visited, |visited|)
        invariant db == After(start, turns, visited, w, |visited|)
        invariant result.schedules == |visited| && result.failed == Failures(turns[..|visited|])
        invariant result.sessionsCreated == Created(start, turns, visited, w, |visited|)
        decreases |turns| - |visited|
      {
        var turn := turns[|visited|];
        db := Run(db, turn.changes);
        var next := LockNextScheduleDue(w.horizon, cursor, turn.locked);
        if next.None? { return; }
        var id := next.value;
        VisitNext(start, turns, visited, w, id);
        result := result.(schedules := result.schedules + 1);
        if turn.fails {
          result := result.(failed := result.failed + 1);
        } else {
          DueIsKnown(db, id, w);
          var s, created := GenerateLocked(RowState(db.schedules[id], db.sessions[id]), w.monthStart, w.horizon);
          db := db.(schedules := db.schedules[id := s.row], sessions := db.sessions[id := s.known]);
          result := result.(sessionsCreated := result.sessionsCreated + created);
        }
        cursor, visited := id, visited + [id];
      }
    }
  }

  lemma NoVisits(db: Db, turns: seq<Turn>, w: Window)
    ensures Visits(db, turns, [], w) && After(db, turns, [], w, 0) == db && Failures(turns[..0]) == 0
    ensures Created(db, turns, [], w, 0) == 0
  {
  }

  lemma DueIsKnown(db: Db, id: Id, w: Window)
    requires DueRow(db, id, w.horizon)
    ensures Known(db, id) && WorkerStep(db, id, w) == SetRow(db, id, Generate(RowOf(db, id), w.monthStart, w.horizon))
  {
  }

  // What later visits do not change.
  lemma {:induction false} SamePrefix(db: Db, turns: seq<Turn>, visited: seq<Id>, more: seq<Id>, w: Window, k: nat)
    requires k <= |visited| && k <= |turns| && visited <= more
    ensures After(db, turns, more, w, k) == After(db, turns, visited, w, k)
    ensures Created(db, turns, more, w, k) == Created(db, turns, visited, w, k)
    decreases k
  {
    hide Run, WorkerStep;
    if k > 0 { SamePrefix(db, turns, visited, more, w, k - 1); }
  }

  lemma VisitNext(db: Db, turns: seq<Turn>, visited: seq<Id>, w: Window, id: Id)
    requires Visits(db, turns, visited, w) && |visited| < |turns|
    requires var open := DueAbove(Before(db, turns, visited, w, |visited|), w.horizon, Cursor(visited, |visited|))
                         - turns[|visited|].locked;
             id in open && forall other :: other in open ==> id <= other
    ensures Visits(db, turns, visited + [id], w)
    ensures var n, found := |visited|, Before(db, turns, visited, w, |visited|);
            var after := if turns[n].fails then found else WorkerStep(found, id, w);
            && DueRow(found, id, w.horizon) && After(db, turns, visited + [id], w, n + 1) == after
            && Created(db, turns, visited + [id], w, n + 1) ==
               Created(db, turns, visited, w, n) + SessionCount(after, id) - SessionCount(found, id)
            && Failures(turns[..n + 1]) == Failures(turns[..n]) + if turns[n].fails then 1 else 0
  {
    hide DueRow, Run, WorkerStep;
    var n, more := |visited|, visited + [id];
    forall k | 0 <= k < |more| ensures Chosen(db, turns, more, w, k) {
      SamePrefix(db, turns, visited, more, w, k);
      assert Cursor(more, k) == Cursor(visited, k);
      assert k < n ==> Chosen(db, turns, visited, w, k);
    }
    SamePrefix(db, turns, visited, more, w, n);
    assert turns[..n + 1][..n] == turns[..n];
  }

  // ---- What every pass does ----

  // Visits are in strictly ascending order, and each schedule was due and not locked.
  lemma {:induction false} VisitsAscend(db: Db, turns: seq<Turn>, visited: seq<Id>, w: Window, i: nat, j: nat)
    requires Visits(db, turns, visited, w) && i <= j < |visited|
    ensures DueRow(Before(db, turns, visited, w, j), visited[j], w.horizon) && visited[j] !in turns[j].locked
    ensures i < j ==> visited[i] < visited[j]
    decreases j
  {
    hide DueRow, Run;
    assert Chosen(db, turns, visited, w, j);
    if i < j { VisitsAscend(db, turns, visited, w, i, j - 1); }
  }

  // A schedule that stays due and unlocked until its turn is visited, whatever others do
  // meanwhile and whatever fails, in every pass that ends because nothing is left to lock.
  lemma NoneSkipped(db: Db, turns: seq<Turn>, visited: seq<Id>, w: Window, id: Id)
    requires Visits(db, turns, visited, w) && |visited| < |turns| && Finished(db, turns, visited, w)
    requires forall k :: 0 <= k <= |visited| && id !in visited[..k] ==>
               id in DueAbove(Before(db, turns, visited, w, k), w.horizon, Nil) && id !in turns[k].locked
    ensures id in visited
  {
    hide DueRow, After, Run;
    if id !in visited { PassedBy(db, turns, visited, w, id, |visited|); }
  }

  lemma {:induction false} PassedBy(db: Db, turns: seq<Turn>, visited: seq<Id>, w: Window, id: Id, k: nat)
    requires Visits(db, turns, visited, w) && id !in visited && k <= |visited| < |turns|
    requires forall j :: 0 <= j <= |visited| && id !in visited[..j] ==>
               id in DueAbove(Before(db, turns, visited, w, j), w.horizon, Nil) && id !in turns[j].locked
    ensures id in DueAbove(Before(db, turns, visited, w, k), w.horizon, Cursor(visited, k))
    decreases k
  {
    hide DueRow, After, Run;
    assert id !in visited[..k];
    if k > 0 {
      PassedBy(db, turns, visited, w, id, k - 1);
      assert id !in visited[..k - 1];
      assert Chosen(db, turns, visited, w, k - 1);
      var open := DueAbove(Before(db, turns, visited, w, k - 1), w.horizon, Cursor(visited, k - 1))
                  - turns[k - 1].locked;
      assert id in open && visited[k - 1] in visited;
    }
  }

  // No pass visits more schedules than the table holds in the end, so it ends by itself.
  lemma PassEnds(db: Db, turns: seq<Turn>, visited: seq<Id>, w: Window)
    requires Inv(db) && Visits(db, turns, visited, w)
    ensures |visited| <= |After(db, turns, visited, w, |visited|).schedules|
  {
    var last := After(db, turns, visited, w, |visited|);
    forall k | 0 <= k < |visited| ensures visited[k] in last.schedules {
      VisitsAscend(db, turns, visited, w, k, k);
      RowsStay(db, turns, visited, w, k, |visited|);
    }
    forall i, j | 0 <= i < j < |visited| ensures visited[i] != visited[j] {
      VisitsAscend(db, turns, visited, w, i, j);
    }
    hide Visits, After;
    DistinctCount(visited, last.schedules.Keys);
  }

  // Whatever others commit in between, the pass keeps the invariant and loses no row.
  lemma {:induction false} PassKeepsInv(db: Db, turns: seq<Turn>, visited: seq<Id>, w: Window, k: nat)
    requires Inv(db) && k <= |visited| && k <= |turns|
    ensures Inv(After(db, turns, visited, w, k))
    decreases k
  {
    hide Inv, Run, WorkerStep;
    if k > 0 {
      PassKeepsInv(db, turns, visited, w, k - 1);
      var found := Before(db, turns, visited, w, k - 1);
      RunKeepsInv(After(db, turns, visited, w, k - 1), turns[k - 1].changes);
      ApplyKeepsInv(found, OpWorker(visited[k - 1], w));
    }
  }

  lemma {:induction false} RowsStay(db: Db, turns: seq<Turn>, visited: seq<Id>, w: Window, i: nat, k: nat)
    requires Inv(db) && i < k <= |visited| && k <= |turns|
    ensures Before(db, turns, visited, w, i).schedules.Keys <= After(db, turns, visited, w, k).schedules.Keys
    decreases k
  {
    hide Inv, Run, Generate, Visible, Due;
    if i + 1 < k {
      RowsStay(db, turns, visited, w, i, k - 1);
      PassKeepsInv(db, turns, visited, w, k - 1);
      RunExtends(After(db, turns, visited, w, k - 1), turns[k - 1].changes);
    }
  }

  lemma {:induction false} DistinctCount(ids: seq<Id>, among: set<Id>)
    requires forall i, j :: 0 <= i < j < |ids| ==> ids[i] != ids[j]
    requires forall i :: 0 <= i < |ids| ==> ids[i] in among
    ensures |ids| <= |among|
    decreases |ids|
  {
    if ids != [] { DistinctCount(ids[1..], among - {ids[0]}); }
  }

  // The transactions of a pass and of the others, in the order in which they committed.
  function Commits(turns: seq<Turn>, visited: seq<Id>, w: Window, k: nat): seq<Op>
    requires k <= |visited| && k <= |turns|
  {
    if k == 0 then []
    else
      Commits(turns, visited, w, k - 1) + turns[k - 1].changes
      + if turns[k - 1].fails then [] else [OpWorker(visited[k - 1], w)]
  }

  // A pass is a run of the worker transactions that committed between those of others, so it
  // keeps everything proved over runs.
  lemma {:induction false} PassIsARun(db: Db, turns: seq<Turn>, visited: seq<Id>, w: Window, k: nat)
    requires k <= |visited| && k <= |turns|
    ensures Run(db, Commits(turns, visited, w, k)) == After(db, turns, visited, w, k)
    decreases k
  {
    hide WorkerStep;
    if k > 0 {
      PassIsARun(db, turns, visited, w, k - 1);
      var earlier := Commits(turns, visited, w, k - 1);
      RunAppend(db, earlier, turns[k - 1].changes);
      if turns[k - 1].fails {
        assert earlier + turns[k - 1].changes + [] == earlier + turns[k - 1].changes;
      } else {
        RunAppend(db, earlier + turns[k - 1].changes, [OpWorker(visited[k - 1], w)]);
      }
    }
  }

  lemma {:induction false} RunAppend(db: Db, a: seq<Op>, b: seq<Op>)
    ensures Run(db, a + b) == Run(Run(db, a), b)
    decreases a
  {
    hide Apply;
    if a == [] {
      assert a + b == b;
    } else {
      assert (a + b)[0] == a[0] && (a + b)[1..] == a[1..] + b;
      RunAppend(Apply(db, a[0]), a[1..], b);
    }
  }

  // ---- Passes that nobody disturbs ----

  ghost predicate Undisturbed(turns: seq<Turn>) {
    forall k :: 0 <= k < |turns| ==> turns[k].changes == [] && turns[k].locked == {} && !turns[k].fails
  }

  function FirstOf(visited: seq<Id>, k: nat): set<Id>
    requires k <= |visited|
  {
    set i | 0 <= i < k :: visited[i]
  }

  lemma {:induction false} UndisturbedSoFar(db: Db, turns: seq<Turn>, visited: seq<Id>, w: Window, k: nat)
    requires Visits(db, turns, visited, w) && Undisturbed(turns) && k <= |visited|
    ensures After(db, turns, visited, w, k) == AfterPass(db, FirstOf(visited, k), w)
    ensures FirstOf(visited, k) <= DueAbove(db, w.horizon, Nil) && |FirstOf(visited, k)| == k
    decreases k
  {
    hide DueRow, AfterPass, WorkerStep;
    if k == 0 {
      AfterPassNothing(db, w);
      assert FirstOf(visited, 0) == {};
    } else {
      var done, id := FirstOf(visited, k - 1), visited[k - 1];
      UndisturbedSoFar(db, turns, visited, w, k - 1);
      VisitsAscend(db, turns, visited, w, k - 1, k - 1);
      assert Before(db, turns, visited, w, k - 1) == AfterPass(db, done, w);
      DueAfterPass(db, done, id, w);
      DueIsKnown(AfterPass(db, done, w), id, w);
      DueIsKnown(db, id, w);
      AfterPassStep(db, done, id, w);
      assert FirstOf(visited, k) == done + {id} && !turns[k - 1].fails;
      assert After(db, turns, visited, w, k) == WorkerStep(AfterPass(db, done, w), id, w);
      VisitsAscend(db, turns, visited, w, 0, k - 1);
      assert Chosen(db, turns, visited, w, 0);
    }
  }

  // An undisturbed pass that is not cancelled generates every due row and no other.
  lemma UndisturbedPass(db: Db, turns: seq<Turn>, visited: seq<Id>, w: Window)
    requires Visits(db, turns, visited, w) && (|visited| < |turns| ==> Finished(db, turns, visited, w))
    requires Undisturbed(turns) && |DueAbove(db, w.horizon, Nil)| < |turns|
    ensures |visited| < |turns|
    ensures Before(db, turns, visited, w, |visited|) == AfterPass(db, DueAbove(db, w.horizon, Nil), w)
  {
    hide DueRow, AfterPass;
    var n, due := |visited|, DueAbove(db, w.horizon, Nil);
    UndisturbedSoFar(db, turns, visited, w, n);
    SubsetSize(FirstOf(visited, n), due);
    forall id | id in due ensures id in FirstOf(visited, n) {
      if id !in FirstOf(visited, n) { NotPassedBy(db, turns, visited, w, id, n); }
    }
    assert FirstOf(visited, n) == due;
  }

  lemma {:induction false} NotPassedBy(db: Db, turns: seq<Turn>, visited: seq<Id>, w: Window, id: Id, k: nat)
    requires Visits(db, turns, visited, w) && Undisturbed(turns) && k <= |visited| < |turns|
    requires id in DueAbove(db, w.horizon, Nil) && id !in FirstOf(visited, |visited|)
    ensures id in DueAbove(Before(db, turns, visited, w, k), w.horizon, Cursor(visited, k))
    decreases k
  {
    hide DueRow, AfterPass;
    UndisturbedSoFar(db, turns, visited, w, k);
    DueAfterPass(db, FirstOf(visited, k), id, w);
    assert turns[k].changes == [] && id !in FirstOf(visited, k);
    assert Before(db, turns, visited, w, k) == After(db, turns, visited, w, k);
    assert After(db, turns, visited, w, k).schedules.Keys == db.schedules.Keys by { KeysAfterPass(db, visited, w, k); }
    if k > 0 {
      NotPassedBy(db, turns, visited, w, id, k - 1);
      assert Chosen(db, turns, visited, w, k - 1);
      var open := DueAbove(Before(db, turns, visited, w, k - 1), w.horizon, Cursor(visited, k - 1))
                  - turns[k - 1].locked;
      assert id in open && visited[k - 1] in FirstOf(visited, |visited|);
    }
  }

  lemma KeysAfterPass(db: Db, visited: seq<Id>, w: Window, k: nat)
    requires k <= |visited|
    ensures AfterPass(db, FirstOf(visited, k), w).schedules.Keys == db.schedules.Keys
  {
  }

  lemma {:induction false} SubsetSize(a: set<Id>, b: set<Id>)
    requires a <= b
    ensures |a| <= |b|
    decreases a
  {
    if a != {} {
      var x :| x in a;
      SubsetSize(a - {x}, b - {x});
    }
  }

  // When nobody else commits meanwhile, the count reported is the growth of the visited rows.
  lemma {:induction false} CreatedIsGrowth(db: Db, turns: seq<Turn>, visited: seq<Id>, w: Window, k: nat)
    requires Visits(db, turns, visited, w) && (forall j :: 0 <= j < |turns| ==> turns[j].changes == [])
    requires k <= |visited|
    ensures Created(db, turns, visited, w, k) ==
            TotalSessions(After(db, turns, visited, w, k).sessions, visited[..k])
            - TotalSessions(db.sessions, visited[..k])
    decreases k
  {
    hide DueRow, Generate;
    if k > 0 {
      CreatedIsGrowth(db, turns, visited, w, k - 1);
      var found, id := After(db, turns, visited, w, k - 1), visited[k - 1];
      assert found == Before(db, turns, visited, w, k - 1);
      assert visited[..k] == visited[..k - 1] + [id];
      forall i | 0 <= i < k - 1 ensures visited[i] != id { VisitsAscend(db, turns, visited, w, i, k - 1); }
      var after := After(db, turns, visited, w, k);
      UntouchedSoFar(db, turns, visited, w, id, k - 1);
      if !turns[k - 1].fails && DueRow(found, id, w.horizon) {
        DueIsKnown(found, id, w);
        TotalOfOthers(found.sessions, id, after.sessions[id], visited[..k - 1]);
        assert after.sessions == found.sessions[id := after.sessions[id]];
      }
      TotalOfOne(after.sessions, db.sessions, id, visited[..k - 1]);
    }
  }

  lemma {:induction false} UntouchedSoFar(db: Db, turns: seq<Turn>, visited: seq<Id>, w: Window, id: Id, k: nat)
    requires k <= |visited| && k <= |turns| && (forall j :: 0 <= j < |turns| ==> turns[j].changes == [])
    requires forall i :: 0 <= i < k ==> visited[i] != id
    ensures SessionCount(After(db, turns, visited, w, k), id) == SessionCount(db, id)
    decreases k
  {
    hide DueRow, Generate;
    if k > 0 { UntouchedSoFar(db, turns, visited, w, id, k - 1); }
  }

  lemma TotalOfOne(after: map<Id, map<Day, Session>>, before: map<Id, map<Day, Session>>, id: Id, visited: seq<Id>)
    ensures TotalSessions(after, visited + [id]) ==
            TotalSessions(after, visited) + if id in after then |after[id]| else 0
    ensures TotalSessions(before, visited + [id]) ==
            TotalSessions(before, visited) + if id in before then |before[id]| else 0
  {
    assert (visited + [id])[..|visited|] == visited;
  }

  // When every due row was generated, no live schedule is due at that horizon after
  // the pass, so an immediate second pass visits and creates nothing.
  lemma PassLeavesNothingDue(db: Db, w: Window)
    ensures DueAbove(AfterPass(db, DueAbove(db, w.horizon, Nil), w), w.horizon, Nil) == {}
    ensures var after := AfterPass(db, DueAbove(db, w.horizon, Nil), w);
            AfterPass(after, DueAbove(after, w.horizon, Nil), w) == after
  {
    var due := DueAbove(db, w.horizon, Nil);
    var after := AfterPass(db, due, w);
    forall id ensures DueRow(after, id, w.horizon) <==> DueRow(db, id, w.horizon) && id !in due {
      DueAfterPass(db, due, id, w);
    }
    hide DueRow;
    assert after.schedules.Keys == db.schedules.Keys;
    assert DueAbove(after, w.horizon, Nil) == {};
    AfterPassNothing(after, w);
    hide AfterPass;
  }
}
