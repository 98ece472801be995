// The enrollment transactions as interleaved statements. A transaction locks its enrollment
// row, then a schedule row, checks for a duplicate, counts the seats and writes; others run
// between any two of these statements and see what is committed. Three writes are single
// statements that take no schedule lock and count nothing: restoring a refused enrollment,
// storing an invoice, and the save of a whole row read earlier.
module SeatProtocol {
  import opened Common
  import opened Calendar
  import opened Enrollments
  import opened EnrollmentTheorems

  // The schedule row a transaction holds FOR UPDATE, as it read it.
  datatype Lock = Lock(schedule: Id, row: ScheduleRow)

  // A running transaction: the enrollment row and schedule row it holds, the checks it passed,
  // and whether it holds a session row.
  datatype Local = Local(
    work: Op, row: Option<Enrollment>, lock: Option<Lock>, unique: bool, counted: Option<nat>, session: bool)

  datatype State = State(tables: Tables, procs: map<Id, Local>)

  datatype Step =
    | Begin(proc: Id, work: Op)
    | LockRow(proc: Id)
    | LockSchedule(proc: Id)
    | LockSession(proc: Id)
    | CheckUnique(proc: Id)
    | Count(proc: Id)
    | Commit(proc: Id)
    | Abort(proc: Id)
    | Direct(op: Op)
    | Save(id: Id, earlier: Enrollment, transaction: Id, checkout: string)

  // ---- What each kind of transaction needs ----

  predicate TakesSeat(work: Op) {
    work.OpSignup? || work.OpResume? || work.OpAssign?
  }

  predicate Replaces(work: Op) {
    work.OpReplace? || work.OpReplaceForTutor?
  }

  // A transition of one locked row that takes no seat.
  predicate Moves(work: Op) {
    work.OpActivate? || work.OpRelease? || work.OpSuspend? || work.OpEnd? || work.OpCancel? || work.OpDropRejected?
  }

  predicate Interleaved(work: Op) {
    TakesSeat(work) || Replaces(work) || work.OpRemoveSchedule? || Moves(work) || WritesNothing(work)
  }

  predicate NeedsRow(work: Op) {
    work.OpResume? || work.OpAssign? || Moves(work)
  }

  predicate NeedsUnique(work: Op) {
    work.OpSignup? || work.OpResume?
  }

  function Wanted(l: Local): Option<Id> {
    match l.work
    case OpSignup(_, _, _, seat, _) => seat
    case OpResume(_, _) => if l.row.Some? then l.row.value.schedule else None
    case OpAssign(_, schedule, _) => Some(schedule)
    case OpReplace(source, _, _, _) => Some(source)
    case OpReplaceForTutor(source, _, _) => Some(source)
    case OpRemoveSchedule(schedule) => Some(schedule)
    case OpGenerate(schedule) => Some(schedule)
    case _ => None
  }

  // The guard of a change or deletion locks the sessions of the row before it counts.
  predicate LocksSessions(work: Op) {
    work.OpReplace? || work.OpRemoveSchedule?
  }

  // The enrollment that the last statement refers to: a new session of a private row refers to
  // the owner, and an edit of a session or of its attendance to the enrollment it is about.
  // The foreign key waits for the row while another transaction holds it for update.
  function Refers(l: Local): Option<Id> {
    match l.work
    case OpReplace(_, _, _, _) => if l.lock.Some? then l.lock.value.row.owner else None
    case OpGenerate(_) => if l.lock.Some? then l.lock.value.row.owner else None
    case OpEditSession(_, about, _) => about
    case _ => None
  }

  // The states a transaction goes on from; in any other it answers without writing.
  predicate RowAccepted(work: Op, e: Enrollment) {
    !e.deleted &&
    match work
    case OpResume(_, _) => e.status == Suspended
    case OpAssign(_, _, _) => e.status == Pending && e.schedule.None?
    case OpSuspend(_) => e.status == Active
    case OpEnd(_) => e.status == Active || e.status == Suspended
    case _ => e.status == Pending
  }

  function ClassOf(l: Local): Id
    requires TakesSeat(l.work) && (NeedsRow(l.work) ==> l.row.Some?)
  {
    if l.work.OpSignup? then l.work.class_ else l.row.value.class_
  }

  predicate ScheduleAccepted(l: Local, row: ScheduleRow)
    requires NeedsRow(l.work) ==> l.row.Some?
  {
    !row.deleted && (TakesSeat(l.work) ==> row.class_ == ClassOf(l) && !Ended(row, l.work.today))
  }

  predicate ClassAccepted(t: Tables, work: Op) {
    work.OpSignup? ==>
      && work.class_ in t.classes && !t.classes[work.class_].deleted
      && t.classes[work.class_].published && t.classes[work.class_].open
      && (work.seat.None? ==> !t.classes[work.class_].isGroup)
  }

  predicate CountAccepted(work: Op, count: nat, capacity: int) {
    && (TakesSeat(work) ==> count < capacity)
    && (work.OpReplace? ==> count <= work.capacity)
    && (work.OpRemoveSchedule? ==> count == 0 && count <= capacity)
  }

  // The enrollment the uniqueness check is about.
  function Candidate(l: Local): Enrollment
    requires NeedsUnique(l.work) && (NeedsRow(l.work) ==> l.row.Some?)
  {
    if l.work.OpSignup? then NewEnrollment(l.work.student, l.work.class_, l.work.seat) else l.row.value
  }

  // ---- The statements ----

  predicate HoldsRow(l: Local, id: Id) {
    l.row.Some? && NeedsRow(l.work) && l.work.id == id
  }

  predicate HoldsLock(l: Local, schedule: Id) {
    l.lock.Some? && l.lock.value.schedule == schedule
  }

  // A session of the row, and all of them.
  predicate HoldsSession(l: Local, schedule: Id) {
    l.work.OpEditSession? && l.session && l.work.schedule == schedule
  }

  predicate HoldsSessions(l: Local, schedule: Id) {
    LocksSessions(l.work) && l.counted.Some? && HoldsLock(l, schedule)
  }

  predicate RowFree(st: State, id: Id) {
    forall p :: p in st.procs ==> !HoldsRow(st.procs[p], id)
  }

  predicate LockFree(st: State, schedule: Id) {
    forall p :: p in st.procs ==> !HoldsLock(st.procs[p], schedule)
  }

  predicate SessionsFree(st: State, schedule: Id) {
    forall p :: p in st.procs ==> !HoldsSession(st.procs[p], schedule)
  }

  // Moving the sessions of a schedule waits for those that another transaction wrote.
  predicate SessionsUnwritten(st: State, schedule: Id) {
    forall p :: p in st.procs && st.procs[p].work.OpEditSession? && st.procs[p].work.writes ==>
      !HoldsSession(st.procs[p], schedule)
  }

  // Moving the enrollments of a schedule waits for every row another transaction holds.
  predicate TransferFree(st: State, source: Id, class_: Id) {
    forall id :: id in st.tables.enrollments && HoldsSeat(st.tables.enrollments[id], source)
                 && st.tables.enrollments[id].class_ == class_ ==>
      RowFree(st, id)
  }

  predicate Ready(l: Local) {
    && (NeedsRow(l.work) ==> l.row.Some?)
    && (NeedsUnique(l.work) ==> l.unique)
    && (Wanted(l).Some? ==> l.lock.Some? && (l.counted.Some? || l.work.OpReplaceForTutor? || l.work.OpGenerate?))
    && (l.work.OpEditSession? ==> l.session)
  }

  predicate CanLockRow(st: State, l: Local) {
    && NeedsRow(l.work) && l.row.None? && RowFree(st, l.work.id)
    && Found(st.tables, l.work.id) && RowAccepted(l.work, st.tables.enrollments[l.work.id])
  }

  predicate CanLockSchedule(st: State, l: Local) {
    && (NeedsRow(l.work) ==> l.row.Some?) && l.lock.None? && Wanted(l).Some? && LockFree(st, Wanted(l).value)
    && ScheduleFound(st.tables, Wanted(l).value) && ScheduleAccepted(l, st.tables.schedules[Wanted(l).value])
  }

  predicate CanLockSession(st: State, l: Local) {
    && l.work.OpEditSession? && !l.session
    && forall p :: p in st.procs ==> !HoldsSessions(st.procs[p], l.work.schedule)
  }

  // A signup looks for a duplicate before it counts, a resume after.
  predicate CanCheckUnique(st: State, l: Local) {
    && NeedsUnique(l.work) && (NeedsRow(l.work) ==> l.row.Some?)
    && (Wanted(l).Some? ==> l.lock.Some? && (l.work.OpResume? ==> l.counted.Some?))
    && !Duplicates(st.tables, l.work.id, Candidate(l))
  }

  predicate CanCount(st: State, l: Local) {
    && l.lock.Some? && l.counted.None? && (l.work.OpSignup? ==> l.unique)
    && (LocksSessions(l.work) ==> SessionsFree(st, l.lock.value.schedule))
    && CountAccepted(l.work, Seats(st.tables, l.lock.value.schedule), l.lock.value.row.capacity)
  }

  predicate CanCommit(st: State, l: Local) {
    && Ready(l)
    && (Replaces(l.work) && l.lock.Some? ==> TransferFree(st, l.lock.value.schedule, l.lock.value.row.class_))
    && (l.work.OpReplaceForTutor? && l.lock.Some? ==> SessionsUnwritten(st, l.lock.value.schedule))
    && (Refers(l).Some? ==> RowFree(st, Refers(l).value))
  }

  // A row as some call read it: the student and class of an enrollment never change, and a
  // schedule row is never removed.
  predicate EarlierCopy(t: Tables, id: Id, earlier: Enrollment) {
    && id in t.enrollments && earlier.student == t.enrollments[id].student && earlier.class_ == t.enrollments[id].class_
    && (earlier.schedule.Some? ==>
        earlier.schedule.value in t.schedules && t.schedules[earlier.schedule.value].class_ == earlier.class_)
  }

  // A statement whose check fails is not enabled: the transaction can only abort.
  predicate Enabled(st: State, step: Step) {
    match step
    case Begin(p, work) => p !in st.procs && Interleaved(work) && ClassAccepted(st.tables, work)
    case LockRow(p) => p in st.procs && CanLockRow(st, st.procs[p])
    case LockSchedule(p) => p in st.procs && CanLockSchedule(st, st.procs[p])
    case LockSession(p) => p in st.procs && CanLockSession(st, st.procs[p])
    case CheckUnique(p) => p in st.procs && CanCheckUnique(st, st.procs[p])
    case Count(p) => p in st.procs && CanCount(st, st.procs[p])
    case Commit(p) => p in st.procs && CanCommit(st, st.procs[p])
    case Abort(p) => p in st.procs
    case Direct(op) => (op.OpRestore? || op.OpUpdatePayment? || op.OpSavePayment?) && RowFree(st, op.id)
    case Save(id, earlier, _, _) => RowFree(st, id) && EarlierCopy(st.tables, id, earlier)
  }

  // The last statement writes what the transaction read under its locks; the indexes decide.
  function Effect(t: Tables, l: Local): Result<Tables, Error>
    requires Ready(l)
  {
    match l.work
    case OpSignup(id, student, class_, seat, _) =>
      if id in t.enrollments then Err(DuplicateKey) else Write(t, id, NewEnrollment(student, class_, seat))
    case OpResume(id, _) =>
      var r := Write(t, id, l.row.value.(status := Active));
      if r.Err? then Err(SuspendedConflict) else r
    case OpAssign(id, schedule, _) =>
      Ok(t.(enrollments := t.enrollments[id := l.row.value.(schedule := Some(schedule))]))
    case OpActivate(id) => Ok(t.(enrollments := t.enrollments[id := l.row.value.(status := Active)]))
    case OpSuspend(id) => Ok(t.(enrollments := t.enrollments[id := l.row.value.(status := Suspended)]))
    case OpRelease(id) => Ok(t.(enrollments := t.enrollments[id := l.row.value.(status := Dropped)]))
    case OpEnd(id) => Ok(t.(enrollments := t.enrollments[id := l.row.value.(status := Dropped)]))
    case OpCancel(id) => Ok(t.(enrollments := t.enrollments[id := l.row.value.(status := Dropped)]))
    case OpDropRejected(id, payment) =>
      Ok(t.(enrollments := t.enrollments[id := l.row.value.(status := Dropped, payment := payment)]))
    case OpReplace(source, target, capacity, effective) =>
      Split(t, l.lock.value.row, source, target, capacity, effective)
    case OpReplaceForTutor(source, target, effective) =>
      Split(t, l.lock.value.row, source, target, l.lock.value.row.capacity, effective)
    case OpRemoveSchedule(schedule) => Ok(t.(schedules := t.schedules[schedule := l.lock.value.row.(deleted := true)]))
    case _ => Ok(t)
  }

  function Split(t: Tables, row: ScheduleRow, source: Id, target: Id, capacity: int,
                 effective: Day): Result<Tables, Error> {
    if target in t.schedules then Err(DuplicateKey)
    else
      Ok(Tables(t.classes,
                t.schedules[source := row.(validUntil := Some(effective - 1))][target := ScheduleRow(row.class_,
                    capacity, row.validUntil, false, row.owner)],
                Transferred(t.enrollments, row.class_, source, target)))
  }

  function Committed(t: Tables, l: Local): Tables
    requires Ready(l)
  {
    var r := Effect(t, l);
    if r.Ok? then r.value else t
  }

  function Do(st: State, step: Step): State
    requires Enabled(st, step)
  {
    match step
    case Begin(p, work) => st.(procs := st.procs[p := Local(work, None, None, false, None, false)])
    case Direct(op) => st.(tables := Apply(st.tables, op))
    case Save(id, earlier, transaction, checkout) =>
      var r := StaleSave(st.tables, id, earlier, transaction, checkout);
      if r.Ok? then st.(tables := r.value) else st
    case LockRow(p) =>
      st.(procs := st.procs[p := st.procs[p].(row := Some(st.tables.enrollments[st.procs[p].work.id]))])
    case LockSchedule(p) =>
      var s := Wanted(st.procs[p]).value;
      st.(procs := st.procs[p := st.procs[p].(lock := Some(Lock(s, st.tables.schedules[s])))])
    case LockSession(p) => st.(procs := st.procs[p := st.procs[p].(session := true)])
    case CheckUnique(p) => st.(procs := st.procs[p := st.procs[p].(unique := true)])
    case Count(p) =>
      st.(procs := st.procs[p := st.procs[p].(counted := Some(Seats(st.tables, st.procs[p].lock.value.schedule)))])
    case Commit(p) => State(Committed(st.tables, st.procs[p]), st.procs - {p})
    case Abort(p) => st.(procs := st.procs - {p})
  }

  // Any interleaving: a step that is not enabled is passed over.
  function Execute(st: State, steps: seq<Step>): State
    decreases steps
  {
    if steps == [] then st
    else Execute(if Enabled(st, steps[0]) then Do(st, steps[0]) else st, steps[1..])
  }

  function Passed(st: State, step: Step): State {
    if Enabled(st, step) then Do(st, step) else st
  }

  lemma {:induction false} ExecuteAppend(st: State, a: seq<Step>, b: seq<Step>)
    ensures Execute(st, a + b) == Execute(Execute(st, a), b)
    decreases a
  {
    hide Enabled, Do;
    if a == [] {
      assert a + b == b;
    } else {
      assert (a + b)[0] == a[0] && (a + b)[1..] == a[1..] + b;
      ExecuteAppend(Passed(st, a[0]), a[1..], b);
    }
  }

  lemma ExecuteFirst(st: State, step: Step, rest: seq<Step>)
    requires Enabled(st, step)
    ensures Execute(st, [step] + rest) == Execute(Do(st, step), rest)
  {
    assert ([step] + rest)[1..] == rest;
    hide Enabled, Do;
  }
}
