// What every interleaving of the enrollment transactions keeps, and exactly which of the
// uncounted writes it allows.
module SeatRoom {
  import opened Common
  import opened Calendar
  import opened Enrollments
  import opened EnrollmentTheorems
  import opened SeatProtocol

  // ---- What holds between any two statements ----

  // What a transaction read under its locks is still so, and its checks came in order.
  ghost predicate Sound(t: Tables, l: Local) {
    && Interleaved(l.work) && ClassAccepted(t, l.work)
    && (l.row.Some? ==>
          NeedsRow(l.work) && l.work.id in t.enrollments && t.enrollments[l.work.id] == l.row.value &&
              RowAccepted(l.work, l.row.value))
    && (l.lock.Some? ==>
          && (NeedsRow(l.work) ==> l.row.Some?) && Wanted(l) == Some(l.lock.value.schedule)
          && l.lock.value.schedule in t.schedules && t.schedules[l.lock.value.schedule] == l.lock.value.row
          && ScheduleAccepted(l, l.lock.value.row))
    && (l.counted.Some? ==>
          l.lock.Some? && (l.work.OpSignup? ==>
              l.unique) && CountAccepted(l.work, l.counted.value, l.lock.value.row.capacity))
  }

  // Two transactions never hold the same row.
  ghost predicate Exclusive(procs: map<Id, Local>) {
    forall p, q :: p in procs && q in procs && p != q ==>
      && (procs[p].lock.Some? ==> !HoldsLock(procs[q], procs[p].lock.value.schedule))
      && (procs[p].row.Some? && NeedsRow(procs[p].work) ==> !HoldsRow(procs[q], procs[p].work.id))
  }

  ghost predicate AllSound(st: State) {
    forall p :: p in st.procs ==> Sound(st.tables, st.procs[p])
  }

  // The student's place in the class is already a seat of the schedule.
  predicate SeatedAlready(t: Tables, l: Local, schedule: Id) {
    NeedsUnique(l.work) && (NeedsRow(l.work) ==> l.row.Some?) &&
    exists d :: d in t.enrollments && d != l.work.id && HoldsSeat(t.enrollments[d], schedule)
      && t.enrollments[d].student == Candidate(l).student && t.enrollments[d].class_ == Candidate(l).class_
  }

  // The transaction has counted a free seat that it may still take in addition to all others.
  predicate Claims(t: Tables, l: Local) {
    && l.lock.Some? && l.counted.Some? && TakesSeat(l.work)
    && (l.work.OpSignup? ==> l.work.id !in t.enrollments)
    && !SeatedAlready(t, l, l.lock.value.schedule)
  }

  // The transaction is about to give the seats it counted a new row of this capacity.
  predicate Shrinks(t: Tables, l: Local) {
    l.lock.Some? && l.counted.Some? && l.work.OpReplace? && l.work.target !in t.schedules
  }

  // A counted seat is still free, and a counted capacity still suffices.
  ghost predicate Room(t: Tables, l: Local) {
    && (Claims(t, l) && l.lock.value.schedule in t.schedules ==>
          Seats(t, l.lock.value.schedule) < t.schedules[l.lock.value.schedule].capacity)
    && (Shrinks(t, l) ==> Seats(t, l.lock.value.schedule) <= l.work.capacity)
  }

  ghost predicate AllRoom(st: State) {
    forall p :: p in st.procs ==> Room(st.tables, st.procs[p])
  }

  ghost predicate Consistent(st: State) {
    OneLive(st.tables) && SchedulesExist(st.tables) && ClassesMatch(st.tables) && AllSound(st) && Exclusive(st.procs)
  }

  ghost predicate Safe(st: State) {
    SeatSafe(st.tables) && Consistent(st) && AllRoom(st)
  }

  // ---- Writing one row beside a running transaction ----

  predicate SameStudent(l: Local, e: Enrollment) {
    NeedsUnique(l.work) && (NeedsRow(l.work) ==>
        l.row.Some?) && e.student == Candidate(l).student && e.class_ == Candidate(l).class_
  }

  // What an uncounted write of row e must leave to a transaction that holds the schedule.
  predicate LeavesRoom(t: Tables, l: Local, id: Id, e: Enrollment) {
    l.lock.Some? && HoldsSeat(e, l.lock.value.schedule) && l.lock.value.schedule in t.schedules
    && !(id in t.enrollments && HoldsSeat(t.enrollments[id], l.lock.value.schedule)) ==>
      var s := l.lock.value.schedule;
      && (Claims(t, l) && !SameStudent(l, e) ==> Seats(t, s) + 1 < t.schedules[s].capacity)
      && (Shrinks(t, l) ==> Seats(t, s) + 1 <= l.work.capacity)
  }

  predicate SameOwner(t: Tables, id: Id, e: Enrollment) {
    id in t.enrollments ==> e.student == t.enrollments[id].student && e.class_ == t.enrollments[id].class_
  }

  function Written(t: Tables, id: Id, e: Enrollment): Tables {
    t.(enrollments := t.enrollments[id := e])
  }

  // A seat the student holds stays, unless this write frees it.
  lemma SeatedStays(t: Tables, id: Id, e: Enrollment, l: Local, s: Id)
    requires SameOwner(t, id, e)
    requires !(id in t.enrollments && HoldsSeat(t.enrollments[id], s) && !HoldsSeat(e, s))
    ensures SeatedAlready(t, l, s) ==> SeatedAlready(Written(t, id, e), l, s)
  {
    hide HoldsSeat;
    if SeatedAlready(t, l, s) {
      var d :| d in t.enrollments && d != l.work.id && HoldsSeat(t.enrollments[d], s)
        && t.enrollments[d].student == Candidate(l).student && t.enrollments[d].class_ == Candidate(l).class_;
      assert d in Written(t, id, e).enrollments;
    }
  }

  // A row that was written is the only one that can make the student seated.
  lemma SeatedByWrite(t: Tables, id: Id, e: Enrollment, l: Local, s: Id)
    ensures SeatedAlready(Written(t, id, e), l, s) ==> SeatedAlready(t, l, s) || (SameStudent(l, e) && HoldsSeat(e, s))
    ensures SameStudent(l, e) && HoldsSeat(e, s) && id != l.work.id ==> SeatedAlready(Written(t, id, e), l, s)
  {
    hide HoldsSeat;
    var u := Written(t, id, e);
    assert id in u.enrollments && u.enrollments[id] == e;
    if SeatedAlready(u, l, s) {
      var d :| d in u.enrollments && d != l.work.id && HoldsSeat(u.enrollments[d], s)
        && u.enrollments[d].student == Candidate(l).student && u.enrollments[d].class_ == Candidate(l).class_;
      if d != id {
        assert d in t.enrollments && t.enrollments[d] == u.enrollments[d];
      }
    }
  }

  // A claim after the write was one before, or claims the seat the write freed.
  lemma ClaimAfterWrite(t: Tables, id: Id, e: Enrollment, l: Local)
    requires Sound(t, l) && !HoldsRow(l, id) && SameOwner(t, id, e) && Claims(Written(t, id, e), l)
    ensures Claims(t, l) ||
        (id in t.enrollments && HoldsSeat(t.enrollments[id], l.lock.value.schedule) &&
            !HoldsSeat(e, l.lock.value.schedule))
    ensures HoldsSeat(e, l.lock.value.schedule) ==> !SameStudent(l, e)
  {
    hide HoldsSeat, Seats, SeatedAlready, Candidate;
    var s := l.lock.value.schedule;
    if !(id in t.enrollments && HoldsSeat(t.enrollments[id], s) && !HoldsSeat(e, s)) {
      SeatedStays(t, id, e, l, s);
    }
    SeatedByWrite(t, id, e, l, s);
  }

  lemma WriteKeepsSound(t: Tables, id: Id, e: Enrollment, l: Local)
    requires Sound(t, l) && !HoldsRow(l, id)
    ensures Sound(Written(t, id, e), l)
  {
  }

  lemma SeatsWritten(t: Tables, id: Id, e: Enrollment, s: Id)
    ensures Seats(Written(t, id, e), s) ==
            Seats(t, s) + (if HoldsSeat(e, s) then 1 else 0)
            - (if id in t.enrollments && HoldsSeat(t.enrollments[id], s) then 1 else 0)
  {
    SeatsOfWrite(t.enrollments, id, e, s);
  }

  lemma WriteKeepsRoom(t: Tables, id: Id, e: Enrollment, l: Local)
    requires SeatSafe(t) && Sound(t, l) && Room(t, l) && !HoldsRow(l, id) && SameOwner(t, id, e)
    requires LeavesRoom(t, l, id, e)
    ensures Room(Written(t, id, e), l)
  {
    hide HoldsSeat, Seats, Claims, SeatedAlready, HoldsRow;
    var u := Written(t, id, e);
    if l.lock.Some? {
      SeatsWritten(t, id, e, l.lock.value.schedule);
      assert Seats(t, l.lock.value.schedule) <= t.schedules[l.lock.value.schedule].capacity;
      if Claims(u, l) {
        ClaimAfterWrite(t, id, e, l);
      }
    }
    if !l.lock.Some? { NoLockNoClaim(u, l); }
  }

  lemma NoLockNoClaim(t: Tables, l: Local)
    requires l.lock.None?
    ensures !Claims(t, l)
  {
  }

  // Without the room, the write leaves the transaction a seat or a capacity short.
  lemma WriteTakesRoom(t: Tables, id: Id, e: Enrollment, l: Local)
    requires Sound(t, l) && !HoldsRow(l, id) && id in t.enrollments && SameOwner(t, id, e) && !LeavesRoom(t, l, id, e)
    ensures !Room(Written(t, id, e), l)
  {
    hide HoldsSeat, Seats, SeatedAlready, Candidate;
    var s := l.lock.value.schedule;
    SeatsWritten(t, id, e, s);
    SeatedByWrite(t, id, e, l, s);
  }

  // ---- Uncounted writes ----

  predicate Uncounted(step: Step) {
    step.Save? || (step.Direct? && (step.op.OpRestore? || step.op.OpUpdatePayment? || step.op.OpSavePayment?))
  }

  function WriteTo(step: Step): Id
    requires Uncounted(step)
  {
    if step.Direct? then step.op.id else step.id
  }

  // The row the statement writes, if it writes one.
  function WriteOf(st: State, step: Step): Option<Enrollment>
    requires Uncounted(step) && Enabled(st, step)
  {
    match step
    case Direct(op) => if Answer(st.tables, op).Ok? then Some(Apply(st.tables, op).enrollments[op.id]) else None
    case Save(id, earlier, transaction, checkout) =>
      if StaleSave(st.tables, id, earlier, transaction,
                   checkout).Ok? then Some(WithInvoice(earlier, transaction, checkout)) else None
  }

  // A seat is free for the row, beside every seat and capacity already counted on its schedule.
  predicate RoomFor(st: State, id: Id, e: Enrollment) {
    && (e.schedule.Some? && e.schedule.value in st.tables.schedules && HoldsSeat(e, e.schedule.value)
        && !(id in st.tables.enrollments && HoldsSeat(st.tables.enrollments[id], e.schedule.value)) ==>
          Seats(st.tables, e.schedule.value) < st.tables.schedules[e.schedule.value].capacity)
    && forall p :: p in st.procs ==> LeavesRoom(st.tables, st.procs[p], id, e)
  }

  predicate HasRoom(st: State, step: Step) {
    Uncounted(step) && Enabled(st, step) && WriteOf(st, step).Some? ==>
        RoomFor(st, WriteTo(step), WriteOf(st, step).value)
  }

  predicate GoodRow(t: Tables, id: Id, e: Enrollment) {
    && id in t.enrollments && SameOwner(t, id, e) && (Live(e) ==> !Duplicates(t, id, e))
    && (e.schedule.Some? ==> e.schedule.value in t.schedules && t.schedules[e.schedule.value].class_ == e.class_)
  }

  lemma WritesGoodRow(st: State, step: Step)
    requires OneLive(st.tables) && SchedulesExist(st.tables) && ClassesMatch(st.tables) && Uncounted(step)
    requires Enabled(st, step)
    ensures Do(st, step) == if WriteOf(st, step).None? then st
                            else st.(tables := Written(st.tables, WriteTo(step), WriteOf(st, step).value))
    ensures WriteOf(st, step).Some? ==>
        GoodRow(st.tables, WriteTo(step), WriteOf(st, step).value) && RowFree(st, WriteTo(step))
  {
    hide Seats, CheckSignup, CheckResume, CheckAssign;
    if step.Direct? {
      DirectGoodRow(st, step);
    } else {
      var e := WithInvoice(step.earlier, step.transaction, step.checkout);
      assert Duplicates(st.tables, step.id, e) == Duplicates(st.tables, step.id, step.earlier);
      hide OneLive;
    }
  }

  lemma DirectGoodRow(st: State, step: Step)
    requires OneLive(st.tables) && SchedulesExist(st.tables) && ClassesMatch(st.tables) && Uncounted(step)
    requires Enabled(st, step) && step.Direct?
    ensures Do(st, step) == if WriteOf(st, step).None? then st
                            else st.(tables := Written(st.tables, WriteTo(step), WriteOf(st, step).value))
    ensures WriteOf(st, step).Some? ==> GoodRow(st.tables, WriteTo(step), WriteOf(st, step).value)
  {
    var t, op := st.tables, step.op;
    if Answer(t, op).Ok? {
      var e := Apply(t, op).enrollments[op.id];
      assert Apply(t, op).enrollments == t.enrollments[op.id := e];
      if Live(t.enrollments[op.id]) {
        StillLiveNoDuplicate(t, op.id, e);
      }
    }
  }

  lemma GoodRowConsistent(st: State, id: Id, e: Enrollment)
    requires Consistent(st) && GoodRow(st.tables, id, e) && RowFree(st, id)
    ensures Consistent(st.(tables := Written(st.tables, id, e)))
  {
    hide Sound, Seats, HoldsRow;
    WriteKeepsOneLive(st.tables, id, e);
    forall p | p in st.procs ensures Sound(Written(st.tables, id, e), st.procs[p]) {
      assert !HoldsRow(st.procs[p], id);
      WriteKeepsSound(st.tables, id, e, st.procs[p]);
    }
  }

  lemma SeatSafeExactly(t: Tables, id: Id, e: Enrollment)
    requires SeatSafe(t)
    ensures SeatSafe(Written(t, id, e)) <==>
            (e.schedule.Some? && e.schedule.value in t.schedules && HoldsSeat(e, e.schedule.value)
             && !(id in t.enrollments && HoldsSeat(t.enrollments[id], e.schedule.value)) ==>
               Seats(t, e.schedule.value) < t.schedules[e.schedule.value].capacity)
  {
    hide Seats;
    var u := Written(t, id, e);
    forall s | s in t.schedules ensures Seats(u, s) ==            Seats(t, s) + (if HoldsSeat(e, s) then 1 else 0)
            - (if id in t.enrollments && HoldsSeat(t.enrollments[id], s) then 1 else 0) {
      SeatsWritten(t, id, e, s);
    }
  }

  // The room is there exactly when the write leaves every capacity and every count honoured.
  lemma RoomIsHonoured(st: State, step: Step)
    requires Safe(st) && Uncounted(step) && Enabled(st, step)
    ensures Consistent(Do(st, step))
    ensures HasRoom(st, step) <==> SeatSafe(Do(st, step).tables) && AllRoom(Do(st, step))
  {
    hide Enabled, WriteOf, Do, Sound, Room, LeavesRoom, SeatSafe, OneLive, GoodRow, HoldsRow, HoldsSeat, Seats,
         SchedulesExist, ClassesMatch, Exclusive;
    WritesGoodRow(st, step);
    if WriteOf(st, step).Some? {
      var id, e := WriteTo(step), WriteOf(st, step).value;
      GoodRowConsistent(st, id, e);
      GoodRowKnown(st.tables, id, e);
      SeatSafeExactly(st.tables, id, e);
      forall p | p in st.procs
        ensures Room(Written(st.tables, id, e), st.procs[p]) <==> LeavesRoom(st.tables, st.procs[p], id, e)
      {
        assert !HoldsRow(st.procs[p], id) && Sound(st.tables, st.procs[p]) && Room(st.tables, st.procs[p]);
        if LeavesRoom(st.tables, st.procs[p], id, e) {
          WriteKeepsRoom(st.tables, id, e, st.procs[p]);
        } else {
          WriteTakesRoom(st.tables, id, e, st.procs[p]);
        }
      }
    }
  }

  lemma GoodRowKnown(t: Tables, id: Id, e: Enrollment)
    requires GoodRow(t, id, e)
    ensures id in t.enrollments && SameOwner(t, id, e)
  {
  }

  // ---- Commits ----

  // A transaction that may write without an index error claims the seat it takes.
  lemma CommitClaims(st: State, p: Id)
    requires Safe(st) && Enabled(st, Commit(p)) && Effect(st.tables, st.procs[p]).Ok?
    ensures var l := st.procs[p]; TakesSeat(l.work) && Wanted(l).Some? ==>
            Seats(st.tables, Wanted(l).value) < st.tables.schedules[Wanted(l).value].capacity
  {
    hide Seats, Exclusive, OneLive, SchedulesExist, ClassesMatch, SeatSafe;
    var t, l := st.tables, st.procs[p];
    assert Sound(t, l) && Room(t, l);
    if TakesSeat(l.work) && Wanted(l).Some? {
      if NeedsUnique(l.work) {
        assert !SeatedAlready(t, l, Wanted(l).value) by { UniqueNotSeated(t, l); }
      }
    }
  }

  lemma UniqueNotSeated(t: Tables, l: Local)
    requires Ready(l) && NeedsUnique(l.work) && Effect(t, l).Ok? && Sound(t, l)
    ensures forall s :: !SeatedAlready(t, l, s)
  {
    var e := if l.work.OpSignup? then Candidate(l) else l.row.value.(status := Active);
    assert !Duplicates(t, l.work.id, e);
    forall s ensures !SeatedAlready(t, l, s) {
    }
  }

  // The last statement of a transaction does what the whole transaction would do if it ran
  // alone at that moment; only the deletion of a schedule may have counted too early, if an
  // uncounted write took a seat since.
  lemma CommitIsAtomic(st: State, p: Id)
    requires Safe(st) && Enabled(st, Commit(p))
    ensures var t, l := st.tables, st.procs[p];
            && (Effect(t, l).Ok? && !l.work.OpRemoveSchedule? ==> Effect(t, l) == Answer(t, l.work))
            && (Effect(t, l).Err? ==> Answer(t, l.work).Err?)
            && ((l.counted.Some? ==> Seats(t, l.lock.value.schedule) <= l.counted.value) ==>
                Effect(t, l) == Answer(t, l.work))
  {
    hide Seats, HoldsSeat, Transferred, Exclusive, OneLive, SchedulesExist, ClassesMatch, SeatSafe, Claims;
    assert Sound(st.tables, st.procs[p]) && Room(st.tables, st.procs[p]);
    if Effect(st.tables, st.procs[p]).Ok? {
      CommitClaims(st, p);
    }
  }
}
