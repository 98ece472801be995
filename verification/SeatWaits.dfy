// Which transactions wait for which, and exactly when some of them wait in a circle.
module SeatWaits {
  import opened Common
  import opened Calendar
  import opened Enrollments
  import opened EnrollmentTheorems
  import opened SeatProtocol
  import opened SeatRoom

  // ---- Waiting ----

  // p's next statement needs a row that q holds. The worker skips a locked schedule. Whoever
  // asks for a first row holds nothing yet, so the shared locks that could keep it waiting,
  // those of references made already, close no circle and are left out.
  predicate Blocked(st: State, p: Id, q: Id) {
    p in st.procs && q in st.procs && p != q &&
    var l, m := st.procs[p], st.procs[q];
    if NeedsRow(l.work) && l.row.None? then HoldsRow(m, l.work.id)
    else if l.work.OpEditSession? && !l.session then HoldsSessions(m, l.work.schedule)
    else if Wanted(l).Some? && l.lock.None? then !l.work.OpGenerate? && HoldsLock(m, Wanted(l).value)
    else if LocksSessions(l.work) && l.counted.None? then l.lock.Some? && HoldsSession(m, l.lock.value.schedule)
    else LastBlocked(st.tables, l, m)
  }

  // The last statement moves the enrollments and sessions of a row and refers to an enrollment.
  predicate LastBlocked(t: Tables, l: Local, m: Local) {
    || (Replaces(l.work) && l.lock.Some? && MovesRowOf(t, l.lock.value, m))
    || (l.work.OpReplaceForTutor? && l.lock.Some? && m.work.OpEditSession? && m.work.writes
        && HoldsSession(m, l.lock.value.schedule))
    || (Refers(l).Some? && HoldsRow(m, Refers(l).value))
  }

  predicate MovesRowOf(t: Tables, lock: Lock, m: Local) {
    m.row.Some? && NeedsRow(m.work) && m.work.id in t.enrollments
    && HoldsSeat(t.enrollments[m.work.id], lock.schedule) && t.enrollments[m.work.id].class_ == lock.row.class_
  }

  // A transaction waits exactly while another one blocks it.
  lemma WaitsExactly(st: State, p: Id)
    requires Safe(st) && p in st.procs
    ensures var l := st.procs[p];
            && (Ready(l) ==> (CanCommit(st, l) <==> forall q :: !Blocked(st, p, q)))
            && (NeedsRow(l.work) && l.row.None? ==> (RowFree(st, l.work.id) <==> forall q :: !Blocked(st, p, q)))
            && (!(NeedsRow(l.work) && l.row.None?) && l.lock.None? && Wanted(l).Some? && !l.work.OpGenerate? ==>
                  (LockFree(st, Wanted(l).value) <==> forall q :: !Blocked(st, p, q)))
            && (l.work.OpEditSession? && !l.session ==>
                  (CanLockSession(st, l) <==> forall q :: !Blocked(st, p, q)))
            && (LocksSessions(l.work) && l.lock.Some? && l.counted.None? ==>
                  (SessionsFree(st, l.lock.value.schedule) <==> forall q :: !Blocked(st, p, q)))
  {
    hide SeatSafe, OneLive, SchedulesExist, ClassesMatch, Room, Exclusive, HoldsSeat, ScheduleAccepted, RowAccepted,
         CountAccepted, ClassAccepted;
    var l := st.procs[p];
    assert Sound(st.tables, l);
    if Ready(l) { CommitWaitsExactly(st, p); }
    hide Ready, CanCommit;
    if NeedsRow(l.work) && l.row.None? {
      forall q | q in st.procs ensures Blocked(st, p, q) <==> HoldsRow(st.procs[q], l.work.id) {
      }
    } else if l.lock.None? && Wanted(l).Some? && !l.work.OpGenerate? {
      forall q | q in st.procs ensures Blocked(st, p, q) <==> HoldsLock(st.procs[q], Wanted(l).value) {
      }
    } else if l.work.OpEditSession? && !l.session {
      forall q | q in st.procs ensures Blocked(st, p, q) <==> HoldsSessions(st.procs[q], l.work.schedule) {
      }
    } else if LocksSessions(l.work) && l.lock.Some? && l.counted.None? {
      forall q | q in st.procs ensures Blocked(st, p, q) <==> HoldsSession(st.procs[q], l.lock.value.schedule) {
      }
    }
  }

  lemma CommitWaitsExactly(st: State, p: Id)
    requires p in st.procs && Ready(st.procs[p]) && Sound(st.tables, st.procs[p])
    ensures CanCommit(st, st.procs[p]) <==> forall q :: !Blocked(st, p, q)
  {
    hide Seats, HoldsSeat, ScheduleAccepted, RowAccepted, CountAccepted, ClassAccepted, ClassOf;
    var l := st.procs[p];
    if CanCommit(st, l) {
      forall q ensures !Blocked(st, p, q) {
      }
    } else if Replaces(l.work) && !TransferFree(st, l.lock.value.schedule, l.lock.value.row.class_) {
      var id :| id in st.tables.enrollments && HoldsSeat(st.tables.enrollments[id], l.lock.value.schedule)
        && st.tables.enrollments[id].class_ == l.lock.value.row.class_ && !RowFree(st, id);
      var q :| q in st.procs && HoldsRow(st.procs[q], id);
      assert Blocked(st, p, q);
    } else if l.work.OpReplaceForTutor? && !SessionsUnwritten(st, l.lock.value.schedule) {
      var q :| q in st.procs && st.procs[q].work.OpEditSession? && st.procs[q].work.writes
        && HoldsSession(st.procs[q], l.lock.value.schedule);
      assert Blocked(st, p, q);
    } else {
      var q :| q in st.procs && HoldsRow(st.procs[q], Refers(l).value);
      assert Blocked(st, p, q);
    }
  }

  // A change that goes on to insert sessions and a generation wait for the owner of their row as
  // long as another transaction holds it, and an edit for the enrollment it is about.
  lemma OwnerIsAwaited(st: State, p: Id, q: Id)
    requires p in st.procs && q in st.procs
    requires var l, m := st.procs[p], st.procs[q];
             && NeedsRow(m.work) && m.row.Some?
             && (|| ((l.work.OpReplace? || l.work.OpGenerate?) && l.lock.Some?
                     && l.lock.value.row.owner == Some(m.work.id))
                 || (l.work.OpEditSession? && l.work.about == Some(m.work.id)))
    ensures !Enabled(st, Commit(p))
  {
    hide Seats, HoldsSeat;
    assert HoldsRow(st.procs[q], st.procs[q].work.id);
    assert !RowFree(st, st.procs[q].work.id);
  }

  // An edit takes a session exactly while no change or deletion that counted holds its row, and
  // a change or deletion counts exactly while no edit holds one, the counts being acceptable.
  lemma SessionsGuarded(st: State, p: Id)
    requires p in st.procs
    ensures
      var l := st.procs[p];
      && (l.work.OpEditSession? && !l.session ==>
            (Enabled(st, LockSession(p)) <==>
             forall q :: q in st.procs && (st.procs[q].work.OpReplace? || st.procs[q].work.OpRemoveSchedule?)
                         && st.procs[q].lock.Some? && st.procs[q].counted.Some? ==>
               st.procs[q].lock.value.schedule != l.work.schedule))
      && ((l.work.OpReplace? || l.work.OpRemoveSchedule?) && l.lock.Some? && l.counted.None? ==>
            var s := l.lock.value.schedule;
            (Enabled(st, Count(p)) <==>
             && CountAccepted(l.work, Seats(st.tables, s), l.lock.value.row.capacity)
             && forall q :: q in st.procs && st.procs[q].work.OpEditSession? && st.procs[q].session ==>
                  st.procs[q].work.schedule != s))
  {
    hide Seats, CountAccepted;
    var l := st.procs[p];
    if l.work.OpEditSession? {
      forall q | q in st.procs
        ensures HoldsSessions(st.procs[q], l.work.schedule) <==>
                (st.procs[q].work.OpReplace? || st.procs[q].work.OpRemoveSchedule?) && st.procs[q].lock.Some?
                && st.procs[q].counted.Some? && st.procs[q].lock.value.schedule == l.work.schedule
      {
      }
    } else if l.lock.Some? {
      forall q | q in st.procs
        ensures HoldsSession(st.procs[q], l.lock.value.schedule) <==>
                st.procs[q].work.OpEditSession? && st.procs[q].session
                && st.procs[q].work.schedule == l.lock.value.schedule
      {
      }
    }
  }

  // ---- Crossings ----

  // An assignment or resumption that holds its enrollment and wants a schedule. Nothing else
  // asks for a schedule while it holds a row.
  predicate Seeks(l: Local) {
    TakesSeat(l.work) && NeedsRow(l.work) && l.row.Some? && l.lock.None? && Wanted(l).Some?
  }

  // The changes that go on to lock sessions or refer to an enrollment under a schedule lock.
  predicate Changes(l: Local) {
    l.lock.Some? && (Replaces(l.work) || l.work.OpRemoveSchedule? || l.work.OpGenerate?)
  }

  predicate Edits(l: Local) {
    l.work.OpEditSession? && l.session
  }

  predicate AwaitsSession(l: Local, edit: Local)
    requires Edits(edit)
  {
    if LocksSessions(l.work) then l.counted.None? else l.work.OpReplaceForTutor? && edit.work.writes
  }

  // A change of a row refers to this enrollment, or waits for an edit of one of the row's
  // sessions that does.
  predicate Leads(st: State, l: Local, e: Id)
    requires Changes(l)
  {
    || (Refers(l) == Some(e) && (LocksSessions(l.work) ==> l.counted.Some?))
    || exists s :: s in st.procs && Edits(st.procs[s]) && HoldsSession(st.procs[s], l.lock.value.schedule)
         && AwaitsSession(l, st.procs[s]) && Refers(st.procs[s]) == Some(e)
  }

  predicate Crosses(st: State, a: Id, b: Id) {
    && a in st.procs && b in st.procs && Seeks(st.procs[a]) && Seeks(st.procs[b])
    && exists r :: r in st.procs && Changes(st.procs[r]) && HoldsLock(st.procs[r], Wanted(st.procs[a]).value)
         && Leads(st, st.procs[r], st.procs[b].work.id)
  }

  // ---- Circles ----

  ghost predicate Path(st: State, ps: seq<Id>) {
    |ps| >= 2 && forall i :: 0 <= i < |ps| - 1 ==> Blocked(st, ps[i], ps[i + 1])
  }

  ghost predicate Circle(st: State, ps: seq<Id>) {
    Path(st, ps) && ps[0] == ps[|ps| - 1]
  }

  ghost predicate CrossPath(st: State, ids: seq<Id>) {
    |ids| >= 2 && forall i :: 0 <= i < |ids| - 1 ==> Crosses(st, ids[i], ids[i + 1])
  }

  ghost predicate CrossCircle(st: State, ids: seq<Id>) {
    CrossPath(st, ids) && ids[0] == ids[|ids| - 1]
  }

  // Whoever both waits and is waited for is of one of three kinds.
  lemma OneOfThree(st: State, p: Id, q: Id, r: Id)
    requires Safe(st) && Blocked(st, p, q) && Blocked(st, q, r)
    ensures Seeks(st.procs[q]) || Changes(st.procs[q]) || Edits(st.procs[q])
  {
    hide SeatSafe, OneLive, SchedulesExist, ClassesMatch, Room, Exclusive, HoldsSeat, ScheduleAccepted, RowAccepted,
         CountAccepted, ClassAccepted, Seats;
    assert Sound(st.tables, st.procs[q]);
  }

  // A seeker waits for a lock, a change for an edit or an enrollment, an edit for an enrollment.
  lemma WhoIsNext(st: State, p: Id, q: Id, r: Id)
    requires Safe(st) && Blocked(st, p, q) && (Blocked(st, q, r) || Seeks(st.procs[q]))
    ensures Seeks(st.procs[p]) ==> Changes(st.procs[q]) && HoldsLock(st.procs[q], Wanted(st.procs[p]).value)
    ensures Changes(st.procs[p]) ==> Seeks(st.procs[q]) || Edits(st.procs[q])
    ensures Edits(st.procs[p]) ==> Seeks(st.procs[q]) && Refers(st.procs[p]) == Some(st.procs[q].work.id)
  {
    hide SeatSafe, OneLive, SchedulesExist, ClassesMatch, Room, Exclusive, HoldsSeat, ScheduleAccepted, RowAccepted,
         CountAccepted, ClassAccepted, Seats;
    assert Sound(st.tables, st.procs[p]) && Sound(st.tables, st.procs[q]);
  }

  // The seekers' own enrollments hold no seat, so no move of enrollments waits for them.
  lemma ChangeLeads(st: State, r: Id, b: Id)
    requires Safe(st) && Blocked(st, r, b) && Changes(st.procs[r]) && Seeks(st.procs[b])
    ensures Leads(st, st.procs[r], st.procs[b].work.id)
  {
    hide SeatSafe, OneLive, SchedulesExist, ClassesMatch, Room, Exclusive, ScheduleAccepted, CountAccepted,
         ClassAccepted, Seats;
    assert Sound(st.tables, st.procs[r]) && Sound(st.tables, st.procs[b]);
  }

  lemma EditLeads(st: State, r: Id, s: Id, e: Id)
    requires Safe(st) && Blocked(st, r, s) && Changes(st.procs[r]) && Edits(st.procs[s])
    requires Refers(st.procs[s]) == Some(e)
    ensures Leads(st, st.procs[r], e)
  {
    hide SeatSafe, OneLive, SchedulesExist, ClassesMatch, Room, Exclusive, ScheduleAccepted, CountAccepted,
         ClassAccepted, Seats, HoldsSeat, RowAccepted;
    assert Sound(st.tables, st.procs[r]) && Sound(st.tables, st.procs[s]);
  }

  // ---- From a circle to crossings ----

  lemma {:induction false} Contract(st: State, ps: seq<Id>) returns (ids: seq<Id>)
    requires Safe(st) && Path(st, ps) && ps[0] in st.procs && Seeks(st.procs[ps[0]])
    requires ps[|ps| - 1] in st.procs && Seeks(st.procs[ps[|ps| - 1]])
    ensures CrossPath(st, ids) && ids[0] == ps[0] && ids[|ids| - 1] == ps[|ps| - 1]
    decreases |ps|
  {
    hide Safe, Blocked, Seeks, Changes, Edits, Leads, HoldsLock, Refers, Wanted;
    var k := FirstCrossing(st, ps);
    if k == |ps| - 1 {
      ids := [ps[0], ps[k]];
    } else {
      assert Path(st, ps[k..]) by { assert forall i :: 0 <= i < |ps[k..]| ==> ps[k..][i] == ps[k + i]; }
      var rest := Contract(st, ps[k..]);
      ids := [ps[0]] + rest;
      assert forall i :: 0 < i < |ids| ==> ids[i] == rest[i - 1];
    }
  }

  // The next seeker on the path is two or three steps away.
  lemma FirstCrossing(st: State, ps: seq<Id>) returns (k: nat)
    requires Safe(st) && Path(st, ps) && ps[0] in st.procs && Seeks(st.procs[ps[0]])
    requires ps[|ps| - 1] in st.procs && Seeks(st.procs[ps[|ps| - 1]])
    ensures 2 <= k < |ps| && ps[k] in st.procs && Seeks(st.procs[ps[k]]) && Crosses(st, ps[0], ps[k])
  {
    hide Safe, Blocked, Leads, Refers;
    assert Blocked(st, ps[0], ps[1]);
    InProcs(st, ps[0], ps[1]);
    assert |ps| > 2 ==> Blocked(st, ps[1], ps[2]);
    WhoIsNext(st, ps[0], ps[1], if |ps| > 2 then ps[2] else ps[1]);
    assert |ps| > 2;
    InProcs(st, ps[1], ps[2]);
    assert |ps| > 3 ==> Blocked(st, ps[2], ps[3]);
    WhoIsNext(st, ps[1], ps[2], if |ps| > 3 then ps[3] else ps[2]);
    if Seeks(st.procs[ps[2]]) {
      ChangeLeads(st, ps[1], ps[2]);
      k := 2;
    } else {
      assert |ps| > 3;
      InProcs(st, ps[2], ps[3]);
      assert |ps| > 4 ==> Blocked(st, ps[3], ps[4]);
      WhoIsNext(st, ps[2], ps[3], if |ps| > 4 then ps[4] else ps[3]);
      EditLeads(st, ps[1], ps[2], st.procs[ps[3]].work.id);
      k := 3;
    }
  }

  lemma InProcs(st: State, p: Id, q: Id)
    requires Blocked(st, p, q)
    ensures p in st.procs && q in st.procs && p != q
  {
  }

  lemma SeekerSoon(st: State, last: Id, ps: seq<Id>) returns (k: nat)
    requires Safe(st) && |ps| == 4 && Blocked(st, last, ps[0])
    requires Blocked(st, ps[0], ps[1]) && Blocked(st, ps[1], ps[2]) && Blocked(st, ps[2], ps[3])
    ensures k <= 2 && ps[k] in st.procs && Seeks(st.procs[ps[k]])
  {
    hide Safe, Blocked, Seeks, Changes, Edits;
    OneOfThree(st, last, ps[0], ps[1]);
    WhoIsNext(st, ps[0], ps[1], ps[2]);
    WhoIsNext(st, ps[1], ps[2], ps[3]);
    InProcs(st, ps[0], ps[1]);
    InProcs(st, ps[1], ps[2]);
    k := if Seeks(st.procs[ps[0]]) then 0 else if Seeks(st.procs[ps[1]]) then 1 else 2;
  }

  // Every circle passes a seeker, and may be walked from there.
  lemma FromASeeker(st: State, ps: seq<Id>) returns (around: seq<Id>)
    requires Safe(st) && Circle(st, ps)
    ensures Circle(st, around) && around[0] in st.procs && Seeks(st.procs[around[0]])
  {
    hide Safe, Blocked, Seeks, Changes, Edits;
    var n, twice := |ps| - 1, ps + ps[1..];
    assert forall i :: 0 <= i < n ==> Blocked(st, ps[i], ps[i + 1]);
    assert forall i :: 0 <= i <= n ==> twice[i] == ps[i] && twice[i + n] == ps[i];
    forall i | 0 <= i < 2 * n ensures Blocked(st, twice[i], twice[i + 1]) {
      if i >= n { assert twice[i] == ps[i - n] && twice[i + 1] == ps[i - n + 1]; }
    }
    InProcs(st, ps[0], ps[1]);
    assert n >= 2;
    var k := SeekerSoon(st, ps[n - 1], twice[..4]);
    around := twice[k..k + n + 1];
    assert forall i :: 0 <= i < |around| ==> around[i] == twice[k + i];
  }

  // ---- From crossings to a circle ----

  // The way from one seeker to the next: over the change that holds its schedule, and perhaps
  // over an edit that the change waits for.
  lemma CrossingIsAPath(st: State, a: Id, b: Id) returns (ps: seq<Id>)
    requires Safe(st) && Crosses(st, a, b)
    ensures Path(st, ps) && ps[0] == a && ps[|ps| - 1] == b
  {
    hide Safe, Leads, HoldsLock, Refers;
    var r :| r in st.procs && Changes(st.procs[r]) && HoldsLock(st.procs[r], Wanted(st.procs[a]).value)
      && Leads(st, st.procs[r], st.procs[b].work.id);
    SeekerBlocked(st, a, r);
    ps := OverAChange(st, r, b);
    ps := [a] + ps;
    hide Blocked;
  }

  lemma SeekerBlocked(st: State, a: Id, r: Id)
    requires a in st.procs && r in st.procs && Seeks(st.procs[a]) && HoldsLock(st.procs[r], Wanted(st.procs[a]).value)
    ensures Blocked(st, a, r)
  {
  }

  lemma OverAChange(st: State, r: Id, b: Id) returns (ps: seq<Id>)
    requires Safe(st) && r in st.procs && b in st.procs && Changes(st.procs[r]) && Seeks(st.procs[b])
    requires Leads(st, st.procs[r], st.procs[b].work.id)
    ensures Path(st, ps) && ps[0] == r && ps[|ps| - 1] == b
  {
    hide SeatSafe, OneLive, SchedulesExist, ClassesMatch, Room, Exclusive, HoldsSeat, ScheduleAccepted, RowAccepted,
         CountAccepted, ClassAccepted, Seats;
    var l, e := st.procs[r], st.procs[b].work.id;
    assert Sound(st.tables, l);
    if Refers(l) == Some(e) && (LocksSessions(l.work) ==> l.counted.Some?) {
      ps := [r, b];
    } else {
      var s :| s in st.procs && Edits(st.procs[s]) && HoldsSession(st.procs[s], l.lock.value.schedule)
        && AwaitsSession(l, st.procs[s]) && Refers(st.procs[s]) == Some(e);
      assert Blocked(st, r, s) && Blocked(st, s, b);
      ps := [r, s, b];
    }
  }

  lemma {:induction false} Expand(st: State, ids: seq<Id>) returns (ps: seq<Id>)
    requires Safe(st) && CrossPath(st, ids)
    ensures Path(st, ps) && ps[0] == ids[0] && ps[|ps| - 1] == ids[|ids| - 1]
    decreases |ids|
  {
    hide Safe, Blocked, Crosses;
    ps := CrossingIsAPath(st, ids[0], ids[1]);
    if |ids| > 2 {
      assert forall i :: 0 <= i < |ids[1..]| ==> ids[1..][i] == ids[i + 1];
      var rest := Expand(st, ids[1..]);
      ps := Joined(st, ps, rest);
    }
  }

  lemma Joined(st: State, a: seq<Id>, b: seq<Id>) returns (ps: seq<Id>)
    requires Path(st, a) && Path(st, b) && a[|a| - 1] == b[0]
    ensures Path(st, ps) && ps[0] == a[0] && ps[|ps| - 1] == b[|b| - 1]
  {
    hide Blocked;
    ps := a + b[1..];
    forall i | 0 <= i < |ps| - 1 ensures Blocked(st, ps[i], ps[i + 1]) {
      if i >= |a| - 1 { assert ps[i] == b[i - |a| + 1] && ps[i + 1] == b[i - |a| + 2]; }
    }
  }

  // ---- The exact condition ----

  // Transactions wait for each other in a circle exactly when assignments and resumptions do:
  // each holds its enrollment and wants a schedule whose holder refers to the next one's
  // enrollment, by itself or by an edit that it waits for.
  lemma CircleExactly(st: State)
    requires Safe(st)
    ensures (exists ps :: Circle(st, ps)) <==> (exists ids :: CrossCircle(st, ids))
  {
    hide Safe, Blocked, Crosses;
    if ps :| Circle(st, ps) {
      var around := FromASeeker(st, ps);
      var ids := Contract(st, around);
      assert CrossCircle(st, ids);
    }
    if ids :| CrossCircle(st, ids) {
      var ps := Expand(st, ids);
      assert Circle(st, ps);
    }
  }

  // With one assignment or resumption under way: exactly when it holds the enrollment that the
  // very schedule it wants leads to, its owner above all.
  lemma OneSeekerExactly(st: State, a: Id)
    requires Safe(st) && a in st.procs && forall p :: p in st.procs && Seeks(st.procs[p]) ==> p == a
    ensures (exists ps :: Circle(st, ps)) <==> Crosses(st, a, a)
  {
    hide Safe, Path, Seeks, HoldsLock, Leads;
    CircleExactly(st);
    if ids :| CrossCircle(st, ids) {
      assert Crosses(st, ids[0], ids[1]);
    }
    if Crosses(st, a, a) {
      assert CrossCircle(st, [a, a]);
    }
  }

  // No circle, as long as nobody assigns or resumes to a private row and no edit of a session
  // is about an enrollment that is being assigned or resumed.
  lemma NoCircle(st: State, ps: seq<Id>)
    requires Safe(st)
    requires forall a :: a in st.procs && Seeks(st.procs[a]) && Wanted(st.procs[a]).value in st.tables.schedules ==>
               st.tables.schedules[Wanted(st.procs[a]).value].owner.None?
    requires forall a, s :: a in st.procs && Seeks(st.procs[a]) && s in st.procs && Edits(st.procs[s]) ==>
               Refers(st.procs[s]) != Some(st.procs[a].work.id)
    ensures !Circle(st, ps)
  {
    if Circle(st, ps) {
      CircleExactly(st);
      var ids :| CrossCircle(st, ids);
      assert Crosses(st, ids[0], ids[1]);
      NoCrossing(st, ids[0], ids[1]);
    }
    hide *;
  }

  lemma NoCrossing(st: State, a: Id, b: Id)
    requires Safe(st) && a in st.procs && b in st.procs && Seeks(st.procs[a]) && Seeks(st.procs[b])
    requires Wanted(st.procs[a]).value in st.tables.schedules ==>
               st.tables.schedules[Wanted(st.procs[a]).value].owner.None?
    requires forall s :: s in st.procs && Edits(st.procs[s]) ==> Refers(st.procs[s]) != Some(st.procs[b].work.id)
    ensures !Crosses(st, a, b)
  {
    hide SeatSafe, OneLive, SchedulesExist, ClassesMatch, Room, Exclusive, HoldsSeat, ScheduleAccepted, RowAccepted,
         CountAccepted, ClassAccepted, Seats;
    forall r | r in st.procs && Changes(st.procs[r]) && HoldsLock(st.procs[r], Wanted(st.procs[a]).value)
      ensures !Leads(st, st.procs[r], st.procs[b].work.id)
    {
      assert Sound(st.tables, st.procs[r]);
    }
  }

  // ---- Two circles ----

  const OWNER := NewEnrollment(1, 5, None)
  const OWN_ROW := ScheduleRow(5, 1, None, false, Some(4))
  const PRIVATE := Tables(map[5 := PRIVATE_CLASS], map[9 := OWN_ROW], map[4 := OWNER])

  const CHANGING := Local(OpReplace(9, 10, 1, 30), None, None, false, None, false)
  const LOCKED := CHANGING.(lock := Some(Lock(9, OWN_ROW)))
  const COUNTED := LOCKED.(counted := Some(0))
  const ASSIGNING := Local(OpAssign(4, 9, 0), None, None, false, None, false)
  const HOLDING := ASSIGNING.(row := Some(OWNER))

  // The change of a private row, and the assignment of its owner to it.
  function ChangeAndAssign(): seq<Step> {
    [Begin(1, OpReplace(9, 10, 1, 30))] + ([LockSchedule(1)] + ([Count(1)] + ThenAssign()))
  }

  function ThenAssign(): seq<Step> {
    [Begin(2, OpAssign(4, 9, 0))] + ([LockRow(2)] + [])
  }

  lemma OwnerCircleIsReachable()
    ensures Inv(PRIVATE) && ClassesMatch(PRIVATE)
    ensures Circle(Execute(State(PRIVATE, map[]), ChangeAndAssign()), [2, 1, 2])
  {
    assert forall s :: SeatSet(PRIVATE.enrollments, s) == {};
    ChangeCounts();
    AssignHolds();
    ChangeAgainstAssign();
    hide Enabled, Do, Circle, ThenAssign;
    ExecuteFirst(State(PRIVATE, map[1 := LOCKED]), Count(1), ThenAssign());
    ExecuteFirst(State(PRIVATE, map[1 := CHANGING]), LockSchedule(1), [Count(1)] + ThenAssign());
    ExecuteFirst(State(PRIVATE, map[]), Begin(1, OpReplace(9, 10, 1, 30)),
                 [LockSchedule(1)] + ([Count(1)] + ThenAssign()));
  }

  lemma ChangeCounts()
    ensures Enabled(State(PRIVATE, map[]), Begin(1, OpReplace(9, 10, 1, 30)))
    ensures Do(State(PRIVATE, map[]), Begin(1, OpReplace(9, 10, 1, 30))) == State(PRIVATE, map[1 := CHANGING])
    ensures Enabled(State(PRIVATE, map[1 := CHANGING]), LockSchedule(1))
    ensures Do(State(PRIVATE, map[1 := CHANGING]), LockSchedule(1)) == State(PRIVATE, map[1 := LOCKED])
    ensures Enabled(State(PRIVATE, map[1 := LOCKED]), Count(1))
    ensures Do(State(PRIVATE, map[1 := LOCKED]), Count(1)) == State(PRIVATE, map[1 := COUNTED])
  {
    assert SeatSet(PRIVATE.enrollments, 9) == {};
  }

  lemma AssignHolds()
    ensures Execute(State(PRIVATE, map[1 := COUNTED]), ThenAssign()) == State(PRIVATE, map[1 := COUNTED, 2 := HOLDING])
  {
    var begun := State(PRIVATE, map[1 := COUNTED, 2 := ASSIGNING]);
    assert Do(begun, LockRow(2)) == State(PRIVATE, map[1 := COUNTED, 2 := HOLDING]);
    assert Do(State(PRIVATE, map[1 := COUNTED]), Begin(2, OpAssign(4, 9, 0))) == begun;
    ExecuteFirst(begun, LockRow(2), []);
    ExecuteFirst(State(PRIVATE, map[1 := COUNTED]), Begin(2, OpAssign(4, 9, 0)), [LockRow(2)] + []);
  }

  lemma ChangeAgainstAssign()
    ensures Circle(State(PRIVATE, map[1 := COUNTED, 2 := HOLDING]), [2, 1, 2])
  {
    var end := State(PRIVATE, map[1 := COUNTED, 2 := HOLDING]);
    assert Blocked(end, 2, 1) && Blocked(end, 1, 2);
  }

  // A group row: the last mark of an attendance list is about a student who was suspended since
  // and is resumed now, while the row is being deleted.
  const PAUSED := NewEnrollment(1, 5, Some(9)).(status := Suspended)
  const GROUP := Tables(map[5 := PRIVATE_CLASS.(isGroup := true)], map[9 := OWN_ROW.(owner := None)], map[4 := PAUSED])
  const MARKING := Local(OpEditSession(9, Some(4), false), None, None, false, None, true)
  const DELETING := Local(OpRemoveSchedule(9), None, Some(Lock(9, OWN_ROW.(owner := None))), false, None, false)
  const RESUMING := Local(OpResume(4, 0), Some(PAUSED), None, false, None, false)

  function MarkDeleteResume(): seq<Step> {
    [Begin(1, OpEditSession(9, Some(4), false))] + ([LockSession(1)] + DeleteResume())
  }

  function DeleteResume(): seq<Step> {
    [Begin(2, OpRemoveSchedule(9))] + ([LockSchedule(2)] + ThenResume())
  }

  function ThenResume(): seq<Step> {
    [Begin(3, OpResume(4, 0))] + ([LockRow(3)] + [])
  }

  lemma AttendanceCircleIsReachable()
    ensures Inv(GROUP) && ClassesMatch(GROUP)
    ensures Circle(Execute(State(GROUP, map[]), MarkDeleteResume()), [3, 2, 1, 3])
  {
    GroupIsSound();
    MarkHolds();
    DeleteHolds();
    ResumeHolds();
    MarkDeleteResumeWait();
    hide *;
  }

  lemma GroupIsSound()
    ensures Inv(GROUP) && ClassesMatch(GROUP)
  {
    assert forall s :: SeatSet(GROUP.enrollments, s) == {};
  }

  lemma MarkDeleteResumeWait()
    ensures Circle(State(GROUP, map[1 := MARKING, 2 := DELETING, 3 := RESUMING]), [3, 2, 1, 3])
  {
    var end := State(GROUP, map[1 := MARKING, 2 := DELETING, 3 := RESUMING]);
    assert Blocked(end, 3, 2) && Blocked(end, 2, 1) && Blocked(end, 1, 3);
    hide Blocked;
  }

  lemma MarkHolds()
    ensures Execute(State(GROUP, map[]), MarkDeleteResume()) == Execute(State(GROUP, map[1 := MARKING]), DeleteResume())
  {
    var begun := State(GROUP, map[1 := MARKING.(session := false)]);
    assert Do(begun, LockSession(1)) == State(GROUP, map[1 := MARKING]);
    assert Do(State(GROUP, map[]), Begin(1, OpEditSession(9, Some(4), false))) == begun;
    hide DeleteResume;
    ExecuteFirst(begun, LockSession(1), DeleteResume());
    ExecuteFirst(State(GROUP, map[]), Begin(1, OpEditSession(9, Some(4), false)), [LockSession(1)] + DeleteResume());
  }

  lemma DeleteHolds()
    ensures Execute(State(GROUP, map[1 := MARKING]), DeleteResume()) ==
            Execute(State(GROUP, map[1 := MARKING, 2 := DELETING]), ThenResume())
  {
    var begun := State(GROUP, map[1 := MARKING, 2 := DELETING.(lock := None)]);
    assert Do(begun, LockSchedule(2)) == State(GROUP, map[1 := MARKING, 2 := DELETING]);
    assert Do(State(GROUP, map[1 := MARKING]), Begin(2, OpRemoveSchedule(9))) == begun;
    hide ThenResume;
    ExecuteFirst(begun, LockSchedule(2), ThenResume());
    ExecuteFirst(State(GROUP, map[1 := MARKING]), Begin(2, OpRemoveSchedule(9)), [LockSchedule(2)] + ThenResume());
  }

  lemma ResumeHolds()
    ensures Execute(State(GROUP, map[1 := MARKING, 2 := DELETING]), ThenResume()) ==
            State(GROUP, map[1 := MARKING, 2 := DELETING, 3 := RESUMING])
  {
    var before := State(GROUP, map[1 := MARKING, 2 := DELETING]);
    var begun := State(GROUP, map[1 := MARKING, 2 := DELETING, 3 := RESUMING.(row := None)]);
    assert Do(begun, LockRow(3)) == State(GROUP, map[1 := MARKING, 2 := DELETING, 3 := RESUMING]);
    assert Do(before, Begin(3, OpResume(4, 0))) == begun;
    ExecuteFirst(begun, LockRow(3), []);
    ExecuteFirst(before, Begin(3, OpResume(4, 0)), [LockRow(3)] + []);
  }
}
