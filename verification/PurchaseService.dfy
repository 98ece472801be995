// The purchase of a private request as methods over the rows it updates in place.
module PurchaseService {
  import opened Common
  import opened PrivateSlots
  import opened P = PrivatePurchase
  import E = Enrollments

  // One call that nothing interleaves with: every statement it may make, in order.
  function Statements(call: Call, facts: Facts, bill: Bill): seq<Step> {
    [StepPrepare(0, call, facts), StepReply(0), StepBill(0, bill), StepSave(0), StepReread(0), StepDrop(0),
     StepReset(0)]
  }

  ghost function Alone(db: Db): System {
    System(db, map[], {})
  }

  ghost function Uninterrupted(db: Db, call: Call, facts: Facts, bill: Bill): System {
    After(Next(Alone(db), StepPrepare(0, call, facts)), bill)
  }

  ghost function After(y: System, bill: Bill): System {
    Next(Next(Next(Next(Next(Next(y, StepReply(0)), StepBill(0, bill)), StepSave(0)), StepReread(0)), StepDrop(0)),
         StepReset(0))
  }

  // It is a run of the interleaved system.
  lemma UninterruptedIsARun(db: Db, call: Call, facts: Facts, bill: Bill)
    ensures Uninterrupted(db, call, facts, bill) == Run(Alone(db), Statements(call, facts, bill))
  {
    hide Next;
    var y0 := Alone(db);
    var steps := Statements(call, facts, bill);
    var y1 := Next(y0, steps[0]);
    var y2 := Next(y1, steps[1]);
    var y3 := Next(y2, steps[2]);
    var y4 := Next(y3, steps[3]);
    var y5 := Next(y4, steps[4]);
    var y6 := Next(y5, steps[5]);
    RunFrom(y0, steps, 0);
    RunFrom(y1, steps, 1);
    RunFrom(y2, steps, 2);
    RunFrom(y3, steps, 3);
    RunFrom(y4, steps, 4);
    RunFrom(y5, steps, 5);
    RunFrom(y6, steps, 6);
    assert steps[0..] == steps && steps[7..] == [];
  }

  lemma RunFrom(y: System, steps: seq<Step>, n: nat)
    requires n < |steps|
    ensures Run(y, steps[n..]) == Run(Next(y, steps[n]), steps[n + 1..])
  {
    assert steps[n..][0] == steps[n] && steps[n..][1..] == steps[n + 1..];
  }

  // A call that is over changes nothing more.
  lemma NothingAfter(y: System, bill: Bill)
    requires 0 !in y.calls
    ensures Next(y, StepReply(0)) == y && Next(y, StepBill(0, bill)) == y && Next(y, StepSave(0)) == y
    ensures Next(y, StepReread(0)) == y && Next(y, StepDrop(0)) == y && Next(y, StepReset(0)) == y
  {
  }

  function Holding(db: Db, call: Call, phase: Phase): System
    requires db.enrollments != []
  {
    System(db, map[0 := Local(call, db.enrollments[0], phase)], {})
  }

  function Settled(db: Db, answer: Option<Answer>): System {
    System(db, map[], if answer.Some? then {answer.value} else {})
  }

  lemma RepliedAtOnce(db: Db, call: Call, bill: Bill)
    requires db.enrollments != [] && (FeeRejected(db.enrollments[0]) || Complete(db.enrollments[0]))
    ensures var e := db.enrollments[0];
            After(Holding(db, call, Ready), bill) ==
              Settled(db, if FeeRejected(e) then None else Some(Answer(e.transaction.value, e.checkout.value)))
  {
    var y := Next(Holding(db, call, Ready), StepReply(0));
    assert y == Settled(db, if FeeRejected(db.enrollments[0]) then None
                            else Some(Answer(db.enrollments[0].transaction.value, db.enrollments[0].checkout.value)));
    hide Next;
    NothingAfter(y, bill);
  }

  predicate Bills(db: Db) {
    db.enrollments != [] && !FeeRejected(db.enrollments[0]) && !Complete(db.enrollments[0])
  }

  lemma BillUnusable(db: Db, call: Call, bill: Bill)
    requires Bills(db) && (bill.Failed? || (bill.Invoice? && (bill.transaction == Nil || !bill.wellFormed)))
    ensures After(Holding(db, call, Ready), bill) == Settled(db, None)
  {
    var y := Holding(db, call, Ready);
    assert Next(y, StepReply(0)) == y;
    assert Next(y, StepBill(0, bill)) == Settled(db, None);
    hide Next;
    NothingAfter(Settled(db, None), bill);
  }

  lemma BillRefused(db: Db, call: Call, bill: Bill)
    requires Bills(db) && bill.Refused?
    ensures var dropped := if db.enrollments[0].status == E.Pending then SetEnrollment(db, E.Dropped, bill.payment)
                           else db;
            After(Holding(db, call, Ready), bill) ==
              Settled(if bill.payment == E.PlatformFeeRejected && FeeRejected(dropped.enrollments[0])
                      then WithStatus(dropped, if call.Accept? then Rejected else Pending) else dropped, None)
  {
    var y := Holding(db, call, Ready);
    var y1 := Holding(db, call, Dropping(bill.payment));
    var dropped := if db.enrollments[0].status == E.Pending then SetEnrollment(db, E.Dropped, bill.payment) else db;
    assert Next(y, StepReply(0)) == y;
    assert Next(y, StepBill(0, bill)) == y1;
    assert Next(y1, StepSave(0)) == y1 && Next(y1, StepReread(0)) == y1;
    var y2 := Next(y1, StepDrop(0));
    assert y2.db == dropped;
    if bill.payment != E.PlatformFeeRejected {
      assert y2 == Settled(dropped, None);
      NothingAfter(y2, bill);
    }
  }

  lemma BillInvoiced(db: Db, call: Call, bill: Bill)
    requires Bills(db) && bill.Invoice? && bill.transaction != Nil && bill.wellFormed
    ensures var e := db.enrollments[0];
            After(Holding(db, call, Ready), bill) ==
              if Unpaid(e, e.id) then Settled(SetPayment(db, bill.transaction, bill.checkout),
                                              Some(Answer(bill.transaction, bill.checkout)))
              else if e.transaction == Some(bill.transaction) && e.checkout == Some(bill.checkout)
                then Settled(db, Some(Answer(bill.transaction, bill.checkout)))
              else Settled(db, None)
  {
    var y, e := Holding(db, call, Ready), db.enrollments[0];
    var y1 := Holding(db, call, Billed(bill.transaction, bill.checkout));
    assert Next(y, StepReply(0)) == y;
    assert Next(y, StepBill(0, bill)) == y1;
    var y2 := Next(y1, StepSave(0));
    var y3 := Next(y2, StepReread(0));
    if Unpaid(e, e.id) {
      assert y2 == Settled(SetPayment(db, bill.transaction, bill.checkout),
                           Some(Answer(bill.transaction, bill.checkout)));
      NothingAfter(y2, bill);
    } else {
      assert y2 == Holding(db, call, Rereading(bill.transaction, bill.checkout));
      assert 0 !in y3.calls;
      NothingAfter(y3, bill);
    }
  }

  class PrivatePurchaseUsecase {
    var request: Request
    var enrollments: seq<Enrollment>
    var schedules: seq<ScheduleRow>
    ghost var chosen: seq<Slot>

    constructor (slots: seq<Slot>)
      ensures State() == Created(slots).db
    {
      request := Request(Pending, slots, [], []);
      enrollments, schedules, chosen := [], [], [];
    }

    ghost function State(): Db
      reads this
    {
      Db(request, enrollments, schedules, chosen)
    }

    // The checks of a first purchase, in the code's order.
    method CheckFirst(call: Call, facts: Facts, slots: seq<Slot>) returns (error: Option<PurchaseError>)
      ensures error == CheckNew(request, call, facts, slots)
    {
      if !facts.classAccepts { return Some(ClassNotEnrollable); }
      if !facts.ownsStudent { return Some(StudentOwnership); }
      if call.Approve? {
        if call.approval.None? && facts.limit.Some? { return Some(Slots(InvalidSelection)); }
        if call.approval.Some? && call.approval.value.expectedLimit != facts.limit {
          return Some(Slots(SelectionStale));
        }
      }
      var invalid := Validate(slots);
      if invalid.Some? { return Some(Slots(InvalidSlots)); }
      if facts.limit.Some? && |slots| > facts.limit.value { return Some(LimitExceeded); }
      if call.Approve? && request.approved != [] { return Some(SelectionConflict); }
      if facts.liveElsewhere { return Some(DuplicateEnrollment); }
      error := None;
    }

    method CreateFirst(call: Call, id: Id, slots: seq<Slot>)
      modifies this
      ensures State() == NewPurchase(old(State()), call, id, slots)
    {
      if call.Approve? { request := request.(approved := slots); }
      enrollments := enrollments + [Enrollment(id, E.Pending, E.PaymentPending, None, None)];
      var before := schedules;
      for n := 0 to |slots|
        invariant schedules == before + RowsFor(id, slots)[..n]
        invariant request == old(request).(approved := if call.Approve? then slots else old(request).approved)
        invariant enrollments == old(enrollments) + [Enrollment(id, E.Pending, E.PaymentPending, None, None)]
      {
        schedules := schedules + [ScheduleRow(id, slots[n])];
      }
      chosen := slots;
      request := request.(status := Approved);
      assert RowsFor(id, slots)[..|slots|] == RowsFor(id, slots);
    }

    // The first transaction; an error rolls it back.
    method PrepareCall(call: Call, facts: Facts) returns (error: Option<PurchaseError>)
      modifies this
      ensures error.None? ==> Prepare(old(State()), call, facts) == Ok(State()) && enrollments != []
      ensures error.Some? ==> Prepare(old(State()), call, facts) == Err(error.value) && State() == old(State())
    {
      hide Acceptable, Selected, CheckNew;
      if call.Accept? {
        if request.recommended == [] || (request.status != Rejected && request.status != Approved) {
          return Some(RequestTransition);
        }
      } else if request.recommended != [] || (request.status != Pending && request.status != Approved) {
        return Some(RequestTransition);
      }
      var selected := request.recommended;
      if call.Approve? {
        var r := SelectedSlots(request.slots, request.approved, call.approval);
        if r.Err? { return Some(Slots(r.error)); }
        selected := r.value;
        if request.approved != [] && call.approval.Some? && selected != request.approved {
          return Some(SelectionConflict);
        }
        if request.status == Approved && request.approved == [] && call.approval.Some?
           && selected != request.slots {
          return Some(SelectionConflict);
        }
      }
      if request.status == Approved {
        if enrollments == [] { return Some(EnrollmentMissing); }
        if enrollments[0].status == E.Dropped && !FeeRejected(enrollments[0]) { return Some(RequestTransition); }
        return None;
      }
      if enrollments != [] {
        if call.Approve? && call.approval.Some? && request.approved == [] && selected != request.slots {
          return Some(SelectionConflict);
        }
        if enrollments[0].status == E.Pending && enrollments[0].transaction.None? {
          request := request.(status := Approved);
          return None;
        }
        if !FeeRejected(enrollments[0]) { return Some(RequestTransition); }
        if facts.liveElsewhere { return Some(DuplicateEnrollment); }
        enrollments := enrollments[0 := enrollments[0].(status := E.Pending, payment := E.PaymentPending)];
        request := request.(status := Approved);
        return None;
      }
      error := CheckFirst(call, facts, selected);
      if error.Some? { return; }
      CreateFirst(call, facts.newId, selected);
    }

    // The whole call, with billing's answer as an input.
    method Purchase(call: Call, facts: Facts, bill: Bill) returns (answer: Option<Answer>)
      modifies this
      ensures var y := Uninterrupted(old(State()), call, facts, bill);
              State() == y.db && y.calls == map[] && y.answers == if answer.Some? then {answer.value} else {}
    {
      hide Prepare, CallStep, After, NewPurchase;
      answer := None;
      ghost var before := State();
      var error := PrepareCall(call, facts);
      if error.Some? {
        NothingPrepared(before, call, facts, bill);
        return;
      }
      var e := enrollments[0];
      ghost var db := State();
      assert Uninterrupted(before, call, facts, bill) == After(Holding(db, call, Ready), bill);
      if FeeRejected(e) {
        RepliedAtOnce(db, call, bill);
        return;
      }
      if e.transaction.Some? && e.checkout.Some? {
        RepliedAtOnce(db, call, bill);
        return Some(Answer(e.transaction.value, e.checkout.value));
      }
      assert Bills(db);
      match bill
      case Failed => BillUnusable(db, call, bill);
      case Refused(payment) =>
        BillRefused(db, call, bill);
        if enrollments[0].status == E.Pending {
          enrollments := enrollments[0 := enrollments[0].(status := E.Dropped, payment := payment)];
        }
        if payment == E.PlatformFeeRejected && FeeRejected(enrollments[0]) {
          request := request.(status := if call.Accept? then Rejected else Pending);
        }
      case Invoice(transaction, checkout, wellFormed) =>
        if transaction == Nil || !wellFormed {
          BillUnusable(db, call, bill);
          return;
        }
        BillInvoiced(db, call, bill);
        if Unpaid(enrollments[0], e.id) {
          enrollments := enrollments[0 := enrollments[0].(transaction := Some(transaction),
                                                          checkout := Some(checkout))];
          return Some(Answer(transaction, checkout));
        }
        if enrollments[0].transaction == Some(transaction) && enrollments[0].checkout == Some(checkout) {
          return Some(Answer(transaction, checkout));
        }
    }
  }

  lemma NothingPrepared(db: Db, call: Call, facts: Facts, bill: Bill)
    requires Prepare(db, call, facts).Err?
    ensures Uninterrupted(db, call, facts, bill) == Alone(db)
  {
    hide Prepare;
    NothingAfter(Alone(db), bill);
  }
}
