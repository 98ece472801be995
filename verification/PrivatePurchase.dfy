// Approving a private request or accepting its recommendation: two transactions with the
// billing call between them, retried and interleaved. One request, its enrollment and the
// schedule rows created for it.
module PrivatePurchase {
  import opened Common
  import opened PrivateSlots
  import E = Enrollments

  datatype RequestStatus = Pending | Approved | Rejected | Declined | Cancelled

  // An empty list of approved or recommended slots is a null column.
  datatype Request = Request(status: RequestStatus, slots: seq<Slot>, recommended: seq<Slot>, approved: seq<Slot>)

  datatype Enrollment = Enrollment(id: Id, status: E.Status, payment: E.PaymentStatus, transaction: Option<Id>,
                                   checkout: Option<string>)

  datatype ScheduleRow = ScheduleRow(enrollment: Id, slot: Slot)

  // The rows that carry the request's idempotency key; chosen records the slots the
  // enrollment was created for.
  datatype Db = Db(request: Request, enrollments: seq<Enrollment>, schedules: seq<ScheduleRow>, chosen: seq<Slot>)

  datatype Call = Approve(approval: Option<Approval>) | Accept

  // What the other tables say when a purchase is prepared, and the id it would use.
  datatype Facts = Facts(classAccepts: bool, limit: Option<int>, ownsStudent: bool, liveElsewhere: bool, newId: Id)

  datatype PurchaseError =
    | RequestTransition
    | Slots(error: Error)
    | SelectionConflict
    | EnrollmentMissing
    | ClassNotEnrollable
    | StudentOwnership
    | LimitExceeded
    | DuplicateEnrollment

  predicate FeeRejected(e: Enrollment) {
    e.status == E.Dropped && e.payment == E.PlatformFeeRejected
  }

  predicate HoldsPlace(e: Enrollment) {
    e.status == E.Pending || e.status == E.Active
  }

  // ---- The first transaction, under the request's row lock ----

  predicate StatusAllows(r: Request, call: Call) {
    match call
    case Accept => r.recommended != [] && (r.status == Rejected || r.status == Approved)
    case Approve(_) => r.recommended == [] && (r.status == Pending || r.status == Approved)
  }

  ghost function Selection(r: Request, call: Call): Result<seq<Slot>, Error> {
    match call
    case Accept => Ok(r.recommended)
    case Approve(approval) => Selected(r.slots, r.approved, approval)
  }

  // An explicit selection may not contradict an earlier one.
  predicate Contradicts(r: Request, call: Call, selected: seq<Slot>, known: bool) {
    call.Approve? && call.approval.Some? &&
    if r.approved != [] then selected != r.approved else known && selected != r.slots
  }

  ghost function CheckNew(r: Request, call: Call, facts: Facts, slots: seq<Slot>): Option<PurchaseError> {
    if !facts.classAccepts then Some(ClassNotEnrollable)
    else if !facts.ownsStudent then Some(StudentOwnership)
    else if call.Approve? && call.approval.None? && facts.limit.Some? then Some(Slots(InvalidSelection))
    else if call.Approve? && call.approval.Some? && call.approval.value.expectedLimit != facts.limit
      then Some(Slots(SelectionStale))
    else if !Acceptable(slots) then Some(Slots(InvalidSlots))
    else if facts.limit.Some? && |slots| > facts.limit.value then Some(LimitExceeded)
    else if call.Approve? && r.approved != [] then Some(SelectionConflict)
    else if facts.liveElsewhere then Some(DuplicateEnrollment)
    else None
  }

  function RowsFor(enrollment: Id, slots: seq<Slot>): (rows: seq<ScheduleRow>)
    ensures |rows| == |slots| && forall i :: 0 <= i < |slots| ==> rows[i] == ScheduleRow(enrollment, slots[i])
  {
    seq(|slots|, i requires 0 <= i < |slots| => ScheduleRow(enrollment, slots[i]))
  }

  function NewPurchase(db: Db, call: Call, id: Id, slots: seq<Slot>): Db {
    Db(db.request.(status := Approved, approved := if call.Approve? then slots else db.request.approved),
       db.enrollments + [Enrollment(id, E.Pending, E.PaymentPending, None, None)],
       db.schedules + RowsFor(id, slots), slots)
  }

  function WithStatus(db: Db, status: RequestStatus): Db {
    db.(request := db.request.(status := status))
  }

  function Restored(db: Db): Db
    requires db.enrollments != []
  {
    WithStatus(db,
               Approved).(enrollments := db.enrollments[0 := db.enrollments[0].(status := E.Pending,
                   payment := E.PaymentPending)])
  }

  // What the transaction leaves behind; its enrollment is the first with the key.
  ghost function Prepare(db: Db, call: Call, facts: Facts): Result<Db, PurchaseError> {
    var r, known := db.request, db.enrollments != [];
    if !StatusAllows(r, call) then Err(RequestTransition)
    else
      var selection := Selection(r, call);
      if selection.Err? then Err(Slots(selection.error))
      else if Contradicts(r, call, selection.value, known || r.status == Approved) then Err(SelectionConflict)
      else if r.status == Approved then
        if !known then Err(EnrollmentMissing)
        else if db.enrollments[0].status == E.Dropped && !FeeRejected(db.enrollments[0]) then Err(RequestTransition)
        else Ok(db)
      else if known then
        var e := db.enrollments[0];
        if e.status == E.Pending && e.transaction.None? then Ok(WithStatus(db, Approved))
        else if !FeeRejected(e) then Err(RequestTransition)
        else if facts.liveElsewhere then Err(DuplicateEnrollment)
        else Ok(Restored(db))
      else
        var error := CheckNew(r, call, facts, selection.value);
        if error.Some? then Err(error.value) else Ok(NewPurchase(db, call, facts.newId, selection.value))
  }

  // ---- Interleaved calls ----

  // Billing's answer: an invoice (checked before use), a refusal, or any other failure.
  datatype Bill =
    Invoice(transaction: Id, checkout: string, wellFormed: bool) | Refused(payment: E.PaymentStatus) | Failed

  datatype Phase =
    | Ready
    | Billed(transaction: Id, checkout: string)
    | Rereading(transaction: Id, checkout: string)
    | Dropping(payment: E.PaymentStatus)
    | Resetting

  // A call after its first transaction, with the enrollment as it saw it.
  datatype Local = Local(call: Call, seen: Enrollment, phase: Phase)

  datatype Answer = Answer(transaction: Id, checkout: string)

  datatype System = System(db: Db, calls: map<Id, Local>, answers: set<Answer>)

  datatype Step =
    | StepPrepare(c: Id, call: Call, facts: Facts)
    | StepReply(c: Id)
    | StepBill(c: Id, bill: Bill)
    | StepSave(c: Id)
    | StepReread(c: Id)
    | StepDrop(c: Id)
    | StepReset(c: Id)
    | StepCrash(c: Id)
    | StepMove(target: E.Status)
    | StepReject(recommended: seq<Slot>)
    | StepDecline
    | StepCancel

  predicate Complete(e: Enrollment) {
    e.transaction.Some? && e.checkout.Some?
  }

  // The life cycle of Enrollments, seen from this enrollment.
  predicate Moves(from: E.Status, target: E.Status) {
    match from
    case Pending => target == E.Active || target == E.Dropped
    case Active => target == E.Suspended || target == E.Dropped
    case Suspended => target == E.Active || target == E.Dropped
    case _ => false
  }

  predicate Unpaid(e: Enrollment, id: Id) {
    e.id == id && e.transaction.None? && HoldsPlace(e)
  }

  function SetPayment(db: Db, transaction: Id, checkout: string): Db
    requires db.enrollments != []
  {
    db.(enrollments := db.enrollments[0 := db.enrollments[0].(transaction := Some(transaction),
                                                              checkout := Some(checkout))])
  }

  function SetEnrollment(db: Db, status: E.Status, payment: E.PaymentStatus): Db
    requires db.enrollments != []
  {
    db.(enrollments := db.enrollments[0 := db.enrollments[0].(status := status, payment := payment)])
  }

  function Gone(y: System, c: Id): System {
    y.(calls := y.calls - {c})
  }

  function Told(y: System, c: Id, transaction: Id, checkout: string): System {
    Gone(y, c).(answers := y.answers + {Answer(transaction, checkout)})
  }

  function InPhase(y: System, c: Id, phase: Phase): System
    requires c in y.calls
  {
    y.(calls := y.calls[c := y.calls[c].(phase := phase)])
  }

  // The call's next statement, when it is in the phase for it.
  function CallStep(y: System, c: Id, step: Step): System
    requires c in y.calls
  {
    var db, l := y.db, y.calls[c];
    match step
    case StepReply(_) =>
      if l.phase != Ready then y
      else if FeeRejected(l.seen) then Gone(y, c)
      else if Complete(l.seen) then Told(y, c, l.seen.transaction.value, l.seen.checkout.value)
      else y
    case StepBill(_, bill) =>
      if l.phase != Ready || FeeRejected(l.seen) || Complete(l.seen) then y
      else (match bill
            case Invoice(transaction, checkout, wellFormed) =>
              if transaction == Nil || !wellFormed then Gone(y, c) else InPhase(y, c, Billed(transaction, checkout))
            case Refused(payment) => InPhase(y, c, Dropping(payment))
            case Failed => Gone(y, c))
    case StepSave(_) =>
      if !l.phase.Billed? then y
      else if db.enrollments != [] && Unpaid(db.enrollments[0], l.seen.id)
      then Told(y.(db := SetPayment(db, l.phase.transaction, l.phase.checkout)), c, l.phase.transaction,
                l.phase.checkout)
      else InPhase(y, c, Rereading(l.phase.transaction, l.phase.checkout))
    case StepReread(_) =>
      if !l.phase.Rereading? then y
      else if db.enrollments != [] && db.enrollments[0].transaction == Some(l.phase.transaction) &&
          db.enrollments[0].checkout == Some(l.phase.checkout)
      then Told(y, c, l.phase.transaction, l.phase.checkout)
      else Gone(y, c)
    case StepDrop(_) =>
      if !l.phase.Dropping? then y
      else
        var dropped := if db.enrollments != [] && db.enrollments[0].status == E.Pending
                       then SetEnrollment(db, E.Dropped, l.phase.payment) else db;
        var z := y.(db := dropped);
        if l.phase.payment == E.PlatformFeeRejected then InPhase(z, c, Resetting) else Gone(z, c)
    case StepReset(_) =>
      if l.phase != Resetting then y
      else if db.enrollments != [] && FeeRejected(db.enrollments[0])
      then Gone(y.(db := WithStatus(db, if l.call.Accept? then Rejected else Pending)), c)
      else Gone(y, c)
    case StepCrash(_) => Gone(y, c)
    case _ => y
  }

  // The world outside the calls: payment notifications and other decisions on the request.
  ghost function WorldStep(db: Db, step: Step): Db {
    match step
    case StepMove(target) =>
      if db.enrollments != [] && Moves(db.enrollments[0].status, target)
      then SetEnrollment(db, target, db.enrollments[0].payment) else db
    case StepReject(recommended) =>
      if db.request.status != Pending || (recommended != [] && !Acceptable(recommended)) then db
      else db.(request := db.request.(status := Rejected,
                                      recommended := if recommended != [] then recommended
                                                     else db.request.recommended))
    case StepDecline => if db.request.status == Rejected && db.request.recommended != [] then WithStatus(db, Declined)
                        else db
    case StepCancel => if db.request.status == Pending then WithStatus(db, Cancelled) else db
    case _ => db
  }

  ghost function Next(y: System, step: Step): System {
    match step
    case StepPrepare(c, call, facts) =>
      var r := Prepare(y.db, call, facts);
      if c in y.calls || r.Err? || r.value.enrollments == [] then y
      else y.(db := r.value, calls := y.calls[c := Local(call, r.value.enrollments[0], Ready)])
    case StepMove(_) => y.(db := WorldStep(y.db, step))
    case StepReject(_) => y.(db := WorldStep(y.db, step))
    case StepDecline => y.(db := WorldStep(y.db, step))
    case StepCancel => y.(db := WorldStep(y.db, step))
    case _ => if step.c in y.calls then CallStep(y, step.c, step) else y
  }

  ghost function Run(y: System, steps: seq<Step>): System
    decreases steps
  {
    if steps == [] then y else Run(Next(y, steps[0]), steps[1..])
  }

  // A request as it is created: pending, with an acceptable proposal.
  function Created(slots: seq<Slot>): System {
    System(Db(Request(Pending, slots, [], []), [], [], []), map[], {})
  }

  // ---- What every interleaving keeps ----

  // One enrollment at most, and its schedule rows are those of the slots it was created for.
  ghost predicate OneEnrollment(db: Db) {
    && |db.enrollments| <= 1
    && (db.enrollments == [] ==>
        db.schedules == [] && db.chosen == [] && db.request.approved == [] && db.request.status != Approved)
    && (db.enrollments != [] ==> db.schedules == RowsFor(db.enrollments[0].id, db.chosen) && Acceptable(db.chosen))
    && (forall e :: e in db.enrollments ==> (e.transaction.Some? <==> e.checkout.Some?))
  }

  // What was approved is what the rows were created for; without it they follow the
  // recommendation, which then no longer changes.
  ghost predicate ChosenKnown(db: Db) {
    && (db.request.approved != [] ==> db.request.approved == db.chosen)
    && (db.enrollments != [] && db.request.approved == [] ==>
        db.request.recommended == db.chosen && db.request.status != Pending)
    && (db.request.status == Pending && db.request.recommended != [] ==> db.request.approved != [])
  }

  // Whatever a call saw of the payment is still stored.
  ghost predicate SeenKept(db: Db, l: Local) {
    && db.enrollments != [] && l.seen.id == db.enrollments[0].id
    && (Complete(l.seen) ==>
        db.enrollments[0].transaction == l.seen.transaction && db.enrollments[0].checkout == l.seen.checkout)
    && (l.call.Approve? ==> db.request.approved != [])
  }

  ghost predicate Answered(db: Db, a: Answer) {
    db.enrollments != [] && db.enrollments[0].transaction == Some(a.transaction) &&
        db.enrollments[0].checkout == Some(a.checkout)
  }

  ghost predicate Inv(y: System) {
    && OneEnrollment(y.db) && ChosenKnown(y.db)
    && (forall c :: c in y.calls ==> SeenKept(y.db, y.calls[c]))
    && (forall a :: a in y.answers ==> Answered(y.db, a))
  }

  // What no step undoes.
  ghost predicate Keeps(db: Db, later: Db) {
    && (db.request.approved != [] ==> later.request.approved == db.request.approved)
    && (db.enrollments != [] ==>
          && later.enrollments != [] && later.enrollments[0].id == db.enrollments[0].id
          && later.schedules == db.schedules && later.chosen == db.chosen
          && (Complete(db.enrollments[0]) ==>
                later.enrollments[0].transaction == db.enrollments[0].transaction &&
                    later.enrollments[0].checkout == db.enrollments[0].checkout))
  }

  lemma KeepsTwice(a: Db, b: Db, c: Db)
    requires Keeps(a, b) && Keeps(b, c)
    ensures Keeps(a, c)
  {
  }

  lemma KeptCalls(y: System, db: Db)
    requires Inv(y) && Keeps(y.db, db)
    ensures forall c :: c in y.calls ==> SeenKept(db, y.calls[c])
    ensures forall a :: a in y.answers ==> Answered(db, a)
  {
    forall a | a in y.answers ensures Answered(db, a) {
      assert Answered(y.db, a) && y.db.enrollments[0] in y.db.enrollments;
    }
  }

  lemma PrepareKeeps(db: Db, call: Call, facts: Facts)
    requires OneEnrollment(db) && ChosenKnown(db) && Prepare(db, call, facts).Ok?
    ensures var u := Prepare(db, call, facts).value;
            OneEnrollment(u) && ChosenKnown(u) && Keeps(db, u) && u.enrollments != [] && (call.Approve? ==>
                u.request.approved != [])
  {
    hide SlotsDisjoint, AllWellFormed, Selected;
    assert forall slots :: Acceptable(slots) ==> slots != [];
  }

  lemma WorldKeeps(db: Db, step: Step)
    requires OneEnrollment(db) && ChosenKnown(db)
    ensures var u := WorldStep(db, step); OneEnrollment(u) && ChosenKnown(u) && Keeps(db, u)
  {
    hide Acceptable;
  }

  lemma CallKeeps(y: System, c: Id, step: Step)
    requires Inv(y) && c in y.calls
    ensures var u := CallStep(y, c, step).db; OneEnrollment(u) && ChosenKnown(u) && Keeps(y.db, u)
  {
    hide Acceptable;
    assert SeenKept(y.db, y.calls[c]);
  }

  lemma NextKeeps(y: System, step: Step)
    requires Inv(y)
    ensures Inv(Next(y, step)) && Keeps(y.db, Next(y, step).db)
  {
    hide OneEnrollment, ChosenKnown, Prepare, WorldStep, Acceptable;
    match step
    case StepPrepare(c, call, facts) =>
      if Prepare(y.db, call, facts).Ok? {
        var u := Prepare(y.db, call, facts).value;
        PrepareKeeps(y.db, call, facts);
        KeptCalls(y, u);
      }
    case StepMove(_) => WorldKeeps(y.db, step); KeptCalls(y, WorldStep(y.db, step));
    case StepReject(_) => WorldKeeps(y.db, step); KeptCalls(y, WorldStep(y.db, step));
    case StepDecline => WorldKeeps(y.db, step); KeptCalls(y, WorldStep(y.db, step));
    case StepCancel => WorldKeeps(y.db, step); KeptCalls(y, WorldStep(y.db, step));
    case _ =>
      if step.c in y.calls {
        CallKeeps(y, step.c, step);
        CallKeepsSeen(y, step.c, step);
      }
  }

  // A call's own record and its answer agree with what is stored.
  lemma CallKeepsSeen(y: System, c: Id, step: Step)
    requires Inv(y) && c in y.calls
    ensures var z := CallStep(y, c, step);
            (forall d :: d in z.calls ==> SeenKept(z.db, z.calls[d])) && (forall a :: a in z.answers ==>
                Answered(z.db, a))
  {
    hide Acceptable, SeenKept, Answered, OneEnrollment, ChosenKnown, Keeps, FeeRejected, HoldsPlace;
    var z, l := CallStep(y, c, step), y.calls[c];
    CallKeeps(y, c, step);
    KeptCalls(y, z.db);
    assert SeenKept(y.db, l);
    forall d | d in z.calls ensures SeenKept(z.db, z.calls[d]) {
      assert d in y.calls && SeenKept(z.db, y.calls[d]);
      SeenAnyPhase(z.db, y.calls[d], z.calls[d]);
    }
    forall a | a in z.answers ensures Answered(z.db, a) {
      if a !in y.answers {
        NewAnswer(y, c, step, a);
      }
    }
  }

  lemma SeenAnyPhase(db: Db, l: Local, m: Local)
    requires SeenKept(db, l) && m.call == l.call && m.seen == l.seen
    ensures SeenKept(db, m)
  {
  }

  lemma NewAnswer(y: System, c: Id, step: Step, a: Answer)
    requires c in y.calls && SeenKept(y.db, y.calls[c]) && a in CallStep(y, c, step).answers && a !in y.answers
    ensures Answered(CallStep(y, c, step).db, a)
  {
  }

  lemma {:induction false} RunKeeps(y: System, steps: seq<Step>)
    requires Inv(y)
    ensures Inv(Run(y, steps)) && Keeps(y.db, Run(y, steps).db)
    decreases steps
  {
    hide Inv, Next, Keeps;
    if steps == [] {
      KeepsItself(y.db);
    } else {
      NextKeeps(y, steps[0]);
      RunKeeps(Next(y, steps[0]), steps[1..]);
      KeepsTwice(y.db, Next(y, steps[0]).db, Run(y, steps).db);
    }
  }

  lemma KeepsItself(db: Db)
    ensures Keeps(db, db)
  {
  }

  // ---- Exactly-once purchase ----

  // However approvals, acceptances, retries, refusals and reopenings interleave, the request
  // owns at most one enrollment, with one schedule row per chosen slot.
  lemma OnePurchase(slots: seq<Slot>, steps: seq<Step>)
    ensures var db := Run(Created(slots), steps).db;
            && |db.enrollments| <= 1
            && (db.enrollments == [] ==> db.schedules == [])
            && (db.enrollments != [] ==>
                Acceptable(db.chosen) && db.schedules == RowsFor(db.enrollments[0].id, db.chosen))
  {
    hide Run, Acceptable;
    RunKeeps(Created(slots), steps);
  }

  // The enrollment, its schedule rows and the approved slots are written once.
  lemma WrittenOnce(slots: seq<Slot>, first: seq<Step>, more: seq<Step>)
    ensures var db, later := Run(Created(slots), first).db, Run(Run(Created(slots), first), more).db;
            && (db.request.approved != [] ==> later.request.approved == db.request.approved)
            && (db.enrollments != [] ==>
                later.enrollments != [] && later.enrollments[0].id == db.enrollments[0].id &&
                    later.schedules == db.schedules)
  {
    hide Run, Acceptable;
    RunKeeps(Created(slots), first);
    RunKeeps(Run(Created(slots), first), more);
  }

  // All successful answers carry one transaction and one checkout, the stored ones.
  lemma OneInvoiceAnswered(slots: seq<Slot>, steps: seq<Step>, a: Answer, b: Answer)
    requires a in Run(Created(slots), steps).answers && b in Run(Created(slots), steps).answers
    ensures a == b && Answered(Run(Created(slots), steps).db, a)
  {
    hide Run, OneEnrollment, ChosenKnown;
    assert Inv(Created(slots)) by { CreatedIsSound(slots); }
    RunKeeps(Created(slots), steps);
    assert Answered(Run(Created(slots), steps).db, a) && Answered(Run(Created(slots), steps).db, b);
  }

  lemma CreatedIsSound(slots: seq<Slot>)
    ensures Inv(Created(slots))
  {
  }

  // ---- The announced slots ----

  // The slots an approval is announced with.
  function Announced(r: Request): seq<Slot> {
    if r.recommended != [] then r.recommended else if r.approved != [] then r.approved else r.slots
  }

  // The announced slots are the scheduled ones exactly when the request was not first
  // approved for other slots than it recommends now.
  lemma AnnouncedAreScheduledExactly(slots: seq<Slot>, steps: seq<Step>)
    requires Run(Created(slots), steps).db.request.status == Approved
    ensures var db := Run(Created(slots), steps).db;
            Announced(db.request) == db.chosen <==>
              (db.request.approved == [] || db.request.recommended == [] ||
                  db.request.recommended == db.request.approved)
  {
    hide Run, SlotsDisjoint, AllWellFormed;
    RunKeeps(Created(slots), steps);
  }

  // A request reopened by a fee refusal, rejected with other slots and then accepted is
  // announced with those slots while its schedule rows stay the first ones.
  lemma AcceptAfterRefusalKeepsOldSlots(db: Db, recommended: seq<Slot>, facts: Facts)
    requires OneEnrollment(db) && ChosenKnown(db) && db.enrollments != [] && FeeRejected(db.enrollments[0])
    requires !facts.liveElsewhere
    requires db.request.status == Pending && Acceptable(recommended) && recommended != db.request.approved
    ensures var rejected := WorldStep(db, StepReject(recommended));
            var r := Prepare(rejected, Accept, facts);
            && r.Ok? && r.value.request.status == Approved
            && Announced(r.value.request) == recommended
            && r.value.schedules == RowsFor(db.enrollments[0].id, db.request.approved)
  {
    hide SlotsDisjoint, AllWellFormed;
  }

  // After a fee refusal and the reset the same purchase may be made again: it restores the
  // same enrollment and approves the request, with no new rows.
  lemma RefusalReopens(y: System, c: Id, facts: Facts)
    requires Inv(y) && c in y.calls && y.calls[c].phase == Resetting && FeeRejected(y.db.enrollments[0])
    requires !facts.liveElsewhere
    requires y.calls[c].call.Accept? <==> y.db.request.recommended != []
    ensures var db := Next(y, StepReset(c)).db;
            var r := Prepare(db, if y.calls[c].call.Accept? then Accept else Approve(None), facts);
            && db.request.status != Approved
            && r.Ok? && r.value.request.status == Approved && r.value.schedules == y.db.schedules
            && r.value.enrollments[0].id == y.db.enrollments[0].id && r.value.enrollments[0].status == E.Pending
            && !FeeRejected(r.value.enrollments[0])
  {
    hide Acceptable;
    assert SeenKept(y.db, y.calls[c]);
  }

  // The path from the created request: approve, fee refusal, reset, reject with other slots,
  // accept.
  lemma OldSlotsAreReachable(slots: seq<Slot>, recommended: seq<Slot>, facts: Facts)
    requires Acceptable(slots) && Acceptable(recommended) && recommended != slots
    requires facts.classAccepts && facts.ownsStudent && facts.limit.None? && !facts.liveElsewhere
    ensures var db := Run(Run(Created(slots), RefusedCall(1, facts) + [StepReset(1)]),
                          [StepReject(recommended), StepPrepare(2, Accept, facts)]).db;
            && db.request.status == Approved && Announced(db.request) == recommended
            && db.enrollments != [] && db.schedules == RowsFor(db.enrollments[0].id, slots)
  {
    hide SlotsDisjoint, AllWellFormed;
    var dropped := AfterRefusal(slots, facts);
    RefusedCallRuns(slots, facts);
    var reset := System(WithStatus(dropped.db, Pending), map[], {});
    assert Run(Created(slots), RefusedCall(1, facts) + [StepReset(1)]) == reset by {
      RunThen(Created(slots), RefusedCall(1, facts), StepReset(1));
    }
    var rejected := System(WorldStep(reset.db, StepReject(recommended)), map[], {});
    assert Next(reset, StepReject(recommended)) == rejected;
    var r := Prepare(rejected.db, Accept, facts);
    assert r.Ok? && Next(rejected, StepPrepare(2, Accept, facts)).db == r.value;
    assert [StepReject(recommended), StepPrepare(2, Accept, facts)][1..] == [StepPrepare(2, Accept, facts)];
    assert Run(rejected, [StepPrepare(2, Accept, facts)]) == Run(Next(rejected, StepPrepare(2, Accept, facts)), []);
  }

  // One approval that billing refuses for the platform fee, up to the drop.
  function RefusedCall(c: Id, facts: Facts): seq<Step> {
    [StepPrepare(c, Approve(None), facts), StepBill(c, Bill.Refused(E.PlatformFeeRejected)), StepDrop(c)]
  }

  // Where it leaves a created request.
  function AfterRefusal(slots: seq<Slot>, facts: Facts): System {
    var created := NewPurchase(Created(slots).db, Approve(None), facts.newId, slots);
    System(SetEnrollment(created, E.Dropped, E.PlatformFeeRejected),
           map[1 := Local(Approve(None), created.enrollments[0], Resetting)], {})
  }

  lemma RefusedCallRuns(slots: seq<Slot>, facts: Facts)
    requires Acceptable(slots) && facts.classAccepts && facts.ownsStudent && facts.limit.None? && !facts.liveElsewhere
    ensures Run(Created(slots), RefusedCall(1, facts)) == AfterRefusal(slots, facts)
  {
    hide SlotsDisjoint, AllWellFormed;
    var y := Created(slots);
    var a, b, c := StepPrepare(1, Approve(None), facts), StepBill(1, Bill.Refused(E.PlatformFeeRejected)), StepDrop(1);
    assert Prepare(y.db, Approve(None), facts) == Ok(NewPurchase(y.db, Approve(None), facts.newId, slots));
    var y1 := Next(y, a);
    assert Run(y, [a, b, c]) == Run(y1, [b, c]) by { assert [a, b, c][1..] == [b, c]; }
    var y2 := Next(y1, b);
    assert Run(y1, [b, c]) == Run(y2, [c]) by { assert [b, c][1..] == [c]; }
    assert Run(y2, [c]) == Run(Next(y2, c), []);
  }

  lemma {:induction false} RunThen(y: System, steps: seq<Step>, last: Step)
    ensures Run(y, steps + [last]) == Next(Run(y, steps), last)
    decreases steps
  {
    hide Next;
    if steps == [] {
      assert steps + [last] == [last];
      assert Run(y, [last]) == Run(Next(y, last), []);
    } else {
      assert (steps + [last])[0] == steps[0] && (steps + [last])[1..] == steps[1..] + [last];
      RunThen(Next(y, steps[0]), steps[1..], last);
    }
  }

  // ---- Reopening after a fee refusal ----

  // The request is approved and its enrollment was refused for the platform fee.
  predicate ApprovedButRefused(y: System) {
    y.db.request.status == Approved && y.db.enrollments != [] && FeeRejected(y.db.enrollments[0])
  }

  // A call that may still ask billing, drop or reset.
  predicate MayReopen(l: Local) {
    || l.phase == Resetting
    || l.phase == Dropping(E.PlatformFeeRejected)
    || (l.phase == Ready && !FeeRejected(l.seen) && !Complete(l.seen))
  }

  predicate NoneReopens(y: System) {
    forall c :: c in y.calls ==> !MayReopen(y.calls[c])
  }

  // The request can leave approval exactly when some call in progress may still reopen it. A
  // process that stops after dropping the enrollment and before the reset leaves none.
  lemma ReopensExactly(y: System)
    requires ApprovedButRefused(y)
    ensures (exists steps :: Run(y, steps).db.request.status != Approved) <==> !NoneReopens(y)
  {
    if NoneReopens(y) {
      forall steps ensures Run(y, steps).db.request.status == Approved {
        StuckForGood(y, steps);
      }
    } else {
      var c :| c in y.calls && MayReopen(y.calls[c]);
      ReopensVia(y, c);
    }
  }

  // Then nothing about the request, its enrollment or its rows ever changes again.
  lemma {:induction false} StuckForGood(y: System, steps: seq<Step>)
    requires ApprovedButRefused(y) && NoneReopens(y)
    ensures Run(y, steps).db == y.db
    decreases steps
  {
    if steps != [] {
      StuckStep(y, steps[0]);
      StuckForGood(Next(y, steps[0]), steps[1..]);
    }
  }

  lemma StuckStep(y: System, step: Step)
    requires ApprovedButRefused(y) && NoneReopens(y)
    ensures NoneReopens(Next(y, step)) && Next(y, step).db == y.db
  {
    hide Acceptable, Selected;
  }

  lemma ReopensVia(y: System, c: Id)
    requires ApprovedButRefused(y) && c in y.calls && MayReopen(y.calls[c])
    ensures exists steps :: Run(y, steps).db.request.status != Approved
  {
    if y.calls[c].phase == Resetting {
      assert Run(y, [StepReset(c)]) == Run(Next(y, StepReset(c)), []);
    } else if y.calls[c].phase.Dropping? {
      DropThenReset(y, c);
    } else {
      var refused := Next(y, StepBill(c, Bill.Refused(E.PlatformFeeRejected)));
      DropThenReset(refused, c);
      var steps := [StepBill(c, Bill.Refused(E.PlatformFeeRejected)), StepDrop(c), StepReset(c)];
      assert steps[1..] == [StepDrop(c), StepReset(c)];
      assert Run(y, steps) == Run(refused, [StepDrop(c), StepReset(c)]);
    }
  }

  lemma DropThenReset(y: System, c: Id)
    requires ApprovedButRefused(y) && c in y.calls && y.calls[c].phase == Dropping(E.PlatformFeeRejected)
    ensures Run(y, [StepDrop(c), StepReset(c)]).db.request.status != Approved
  {
    var dropped := Next(y, StepDrop(c));
    assert dropped.db == y.db && dropped.calls[c].phase == Resetting;
    assert [StepDrop(c), StepReset(c)][1..] == [StepReset(c)];
    assert Run(y, [StepDrop(c), StepReset(c)]) == Run(dropped, [StepReset(c)]);
    assert Run(dropped, [StepReset(c)]) == Run(Next(dropped, StepReset(c)), []);
  }

  // That state is reached: approve, refusal, drop, crash.
  lemma StuckIsReachable(slots: seq<Slot>, facts: Facts)
    requires Acceptable(slots) && facts.classAccepts && facts.ownsStudent && facts.limit.None? && !facts.liveElsewhere
    ensures var y := Run(Created(slots), RefusedCall(1, facts) + [StepCrash(1)]);
            ApprovedButRefused(y) && NoneReopens(y)
  {
    RefusedCallRuns(slots, facts);
    RunThen(Created(slots), RefusedCall(1, facts), StepCrash(1));
  }
}
