// What a purchase call answers and stores, told from the request, its enrollment and what the
// outside says: the first transaction, the whole call, and above all its retry.
module PurchaseOutcomes {
  import opened Common
  import opened PrivateSlots
  import opened P = PrivatePurchase
  import opened Service = PurchaseService
  import E = Enrollments

  // ---- Selections ----

  // The positions of a selection: exactly the requested ones, in the order of the proposal.
  ghost predicate Picks(proposal: seq<Slot>, indexes: seq<int>, chosen: seq<Slot>, positions: seq<int>) {
    && |chosen| == |positions| && (forall i :: i in positions <==> i in indexes)
    && (forall k :: 0 <= k < |positions| ==> 0 <= positions[k] < |proposal| && chosen[k] == proposal[positions[k]])
    && (forall j, k :: 0 <= j < k < |positions| ==> positions[j] < positions[k])
  }

  // Without an explicit selection the earlier one stands, or else the whole proposal; an explicit
  // one must be made on this proposal and name some of its slots, none twice.
  lemma SelectedExactly(proposal: seq<Slot>, approved: seq<Slot>, approval: Option<Approval>)
    ensures
      var r := Selected(proposal, approved, approval);
      if approval.None? then r == Ok(if approved != [] then approved else proposal)
      else
        var a := approval.value;
        var named := && a.indexes != [] && (forall k :: 0 <= k < |a.indexes| ==> 0 <= a.indexes[k] < |proposal|)
                     && forall j, k :: 0 <= j < k < |a.indexes| ==> a.indexes[j] != a.indexes[k];
        && (a.snapshot != proposal ==> r == Err(SelectionStale))
        && (a.snapshot == proposal && !named ==> r == Err(InvalidSelection))
        && (a.snapshot == proposal && named ==>
              r.Ok? && exists positions :: Picks(proposal, a.indexes, r.value, positions))
  {
    if approval.Some? && approval.value.snapshot == proposal && ValidIndexes(approval.value.indexes, |proposal|) {
      var wanted := IndexSet(approval.value.indexes);
      ChosenExactly(proposal, wanted);
      var positions: seq<int> := Positions(|proposal|, wanted);
      assert forall i :: i in positions ==> i in wanted;
      assert Picks(proposal, approval.value.indexes, Chosen(proposal, wanted), positions);
    }
  }

  // One to fifty slots of a weekday each, with clock times in order, no two of a day overlapping.
  lemma AcceptableExactly(slots: seq<Slot>)
    ensures
      Acceptable(slots) <==>
        && 1 <= |slots| && |slots| <= 50
        && (forall i :: 0 <= i < |slots| ==>
              && 1 <= slots[i].day && slots[i].day <= 7
              && ParseClock(slots[i].start).Some? && ParseClock(slots[i].end).Some?
              && ParseClock(slots[i].start).value < ParseClock(slots[i].end).value)
        && (forall i, j :: 0 <= i < j < |slots| && slots[i].day == slots[j].day ==>
              || ParseClock(slots[i].end).value <= ParseClock(slots[j].start).value
              || ParseClock(slots[j].end).value <= ParseClock(slots[i].start).value)
  {
    hide ParseClock;
  }

  // ---- The first transaction ----

  // The enrollment was dropped because billing refused the platform fee.
  predicate FeeRefused(e: P.Enrollment) {
    e.status == E.Dropped && e.payment == E.PlatformFeeRejected
  }

  // Whether the call may be made of the request as it is.
  predicate MayAsk(r: Request, call: Call) {
    match call
    case Accept => r.recommended != [] && (r.status == Rejected || r.status == Approved)
    case Approve(_) => r.recommended == [] && (r.status == P.RequestStatus.Pending || r.status == Approved)
  }

  // An explicit approval of something else than was approved, or, when an enrollment is there
  // already, than was asked for.
  predicate AsksElse(db: Db, call: Call, slots: seq<Slot>) {
    call.Approve? && call.approval.Some?
    && (if db.request.approved != [] then slots != db.request.approved
        else (db.enrollments != [] || db.request.status == Approved) && slots != db.request.slots)
  }

  // Asked of a request that is not open for it, with an unusable selection, or for other slots.
  lemma PrepareRefused(db: Db, call: Call, facts: Facts)
    ensures
      var r := Prepare(db, call, facts);
      && (!MayAsk(db.request, call) ==> r == Err(RequestTransition))
      && (MayAsk(db.request, call) && call.Approve? ==>
            var selected := Selected(db.request.slots, db.request.approved, call.approval);
            && (selected.Err? ==> r == Err(Slots(selected.error)))
            && (selected.Ok? && AsksElse(db, call, selected.value) ==> r == Err(SelectionConflict)))
  {
    hide Acceptable, Selected;
  }

  ghost predicate Asked(db: Db, call: Call, slots: seq<Slot>) {
    && MayAsk(db.request, call) && !AsksElse(db, call, slots)
    && (if call.Accept? then slots == db.request.recommended
        else Selected(db.request.slots, db.request.approved, call.approval) == Ok(slots))
  }

  // An approved request: its call goes on with the enrollment as it is, unless that was dropped
  // for another reason than the platform fee.
  lemma PrepareApproved(db: Db, call: Call, facts: Facts, slots: seq<Slot>)
    requires Asked(db, call, slots) && db.request.status == Approved
    ensures
      Prepare(db, call, facts) ==
        if db.enrollments == [] then Err(EnrollmentMissing)
        else if db.enrollments[0].status == E.Dropped && db.enrollments[0].payment != E.PlatformFeeRejected
        then Err(RequestTransition)
        else Ok(db)
  {
    hide Acceptable, Selected;
  }

  // A request with an enrollment from before: pending without an invoice, it is approved again;
  // refused for the fee, it comes back unless the student has another place; else it is settled.
  lemma PrepareAgain(db: Db, call: Call, facts: Facts, slots: seq<Slot>)
    requires Asked(db, call, slots) && db.request.status != Approved && db.enrollments != []
    ensures
      var r, e := Prepare(db, call, facts), db.enrollments[0];
      var waits := e.status == E.Pending && e.transaction.None?;
      && (waits ==> r == Ok(db.(request := db.request.(status := Approved))))
      && (!waits && !FeeRefused(e) ==> r == Err(RequestTransition))
      && (!waits && FeeRefused(e) && facts.liveElsewhere ==> r == Err(DuplicateEnrollment))
      && (!waits && FeeRefused(e) && !facts.liveElsewhere ==>
            && r.Ok? && r.value.request == db.request.(status := Approved)
            && r.value.schedules == db.schedules && r.value.chosen == db.chosen
            && r.value.enrollments == db.enrollments[0 := e.(status := E.Pending, payment := E.PaymentPending)])
  {
    hide Acceptable, Selected;
  }

  // A first purchase: every check, in order, and what it creates.
  lemma PrepareFirst(db: Db, call: Call, facts: Facts, slots: seq<Slot>)
    requires Asked(db, call, slots) && db.request.status != Approved && db.enrollments == []
    ensures
      var r := Prepare(db, call, facts);
      var explicit := call.Approve? && call.approval.Some?;
      var choose := !(call.Approve? && call.approval.None? && facts.limit.Some?);
      var current := explicit ==> call.approval.value.expectedLimit == facts.limit;
      var within := facts.limit.Some? ==> |slots| <= facts.limit.value;
      var unchosen := call.Approve? ==> db.request.approved == [];
      var a, o := facts.classAccepts, facts.ownsStudent;
      var ok := Acceptable(slots);
      && (!a ==> r == Err(ClassNotEnrollable))
      && (a && !o ==> r == Err(StudentOwnership))
      && (a && o && !choose ==> r == Err(Slots(InvalidSelection)))
      && (a && o && choose && !current ==> r == Err(Slots(SelectionStale)))
      && (a && o && choose && current && !ok ==> r == Err(Slots(InvalidSlots)))
      && (a && o && choose && current && ok && !within ==> r == Err(LimitExceeded))
      && (a && o && choose && current && ok && within && !unchosen ==> r == Err(SelectionConflict))
      && (a && o && choose && current && ok && within && unchosen && facts.liveElsewhere ==>
            r == Err(DuplicateEnrollment))
      && (a && o && choose && current && ok && within && unchosen && !facts.liveElsewhere ==>
            Bought(r, db, call, facts.newId, slots))
  {
    hide Acceptable, Selected;
  }

  // One pending enrollment, one row for each slot, and the request approved for them.
  ghost predicate Bought(r: Result<Db, PurchaseError>, db: Db, call: Call, id: Id, slots: seq<Slot>) {
    && r.Ok? && r.value.chosen == slots
    && r.value.request == db.request.(status := Approved,
                                      approved := if call.Approve? then slots else db.request.approved)
    && r.value.enrollments == db.enrollments + [P.Enrollment(id, E.Pending, E.PaymentPending, None, None)]
    && |r.value.schedules| == |db.schedules| + |slots| && db.schedules <= r.value.schedules
    && forall k :: 0 <= k < |slots| ==> r.value.schedules[|db.schedules| + k] == ScheduleRow(id, slots[k])
  }

  // ---- The whole call ----

  // What an uninterrupted call stores and answers after its first transaction. A stored invoice
  // is answered; else billing's, if it is usable and can be stored; a refusal drops a pending
  // enrollment, and for the platform fee also opens the request again.
  ghost predicate Concludes(db: Db, call: Call, bill: Bill, end: Db, answers: set<Answer>)
    requires db.enrollments != []
  {
    var e := db.enrollments[0];
    if FeeRefused(e) then end == db && answers == {}
    else if e.transaction.Some? && e.checkout.Some? then
      end == db && answers == {Answer(e.transaction.value, e.checkout.value)}
    else
      match bill
      case Failed => end == db && answers == {}
      case Refused(payment) =>
        var dropped := if e.status == E.Pending then e.(status := E.Dropped, payment := payment) else e;
        && answers == {} && end.enrollments == db.enrollments[0 := dropped] && end.schedules == db.schedules
        && end.chosen == db.chosen
        && end.request == (if payment == E.PlatformFeeRejected && FeeRefused(dropped)
                           then db.request.(status := if call.Accept? then Rejected else P.RequestStatus.Pending)
                           else db.request)
      case Invoice(transaction, checkout, wellFormed) =>
        if transaction == 0 || !wellFormed then end == db && answers == {}
        else if e.transaction.None? && (e.status == E.Pending || e.status == E.Active) then
          && answers == {Answer(transaction, checkout)} && end.request == db.request && end.schedules == db.schedules
          && end.chosen == db.chosen
          && end.enrollments == db.enrollments[0 := e.(transaction := Some(transaction), checkout := Some(checkout))]
        else end == db && answers == {}
  }

  lemma CallConcludes(db: Db, call: Call, bill: Bill)
    requires db.enrollments != [] && (db.enrollments[0].transaction.Some? <==> db.enrollments[0].checkout.Some?)
    ensures
      var y := After(Holding(db, call, Ready), bill);
      y.calls == map[] && Concludes(db, call, bill, y.db, y.answers)
  {
    var e := db.enrollments[0];
    if FeeRejected(e) || Complete(e) {
      RepliedAtOnce(db, call, bill);
    } else {
      match bill
      case Failed => BillUnusable(db, call, bill);
      case Refused(_) => BillRefused(db, call, bill);
      case Invoice(transaction, _, wellFormed) =>
        if transaction == Nil || !wellFormed { BillUnusable(db, call, bill); } else { BillInvoiced(db, call, bill); }
    }
    hide After;
  }

  // ---- Retries ----

  // The call that approved the request, again: with no explicit selection, or with the approved
  // slots.
  ghost predicate SameCall(r: Request, call: Call) {
    if r.recommended != [] then call.Accept?
    else call.Approve? && (call.approval.None? || Selected(r.slots, r.approved, call.approval) == Ok(r.approved))
  }

  // Of an approved request whose enrollment was not dropped, the same call may be made again at
  // any time, after a crash above all. Its first transaction changes nothing, and it answers the
  // invoice that is stored or else stores and answers the one that billing gives.
  lemma RetryConcludes(slots: seq<Slot>, steps: seq<Step>, call: Call, facts: Facts, bill: Bill)
    requires
      var db := Run(Created(slots), steps).db;
      && db.request.status == Approved && SameCall(db.request, call)
      && (db.enrollments != [] ==> db.enrollments[0].status != E.Dropped)
    ensures
      var db := Run(Created(slots), steps).db;
      var prepared := Next(Alone(db), StepPrepare(0, call, facts));
      var y := Uninterrupted(db, call, facts, bill);
      && db.enrollments != [] && prepared.db == db && 0 in prepared.calls
      && y.calls == map[]
      && var e := db.enrollments[0];
      && (e.transaction.Some? ==>
            e.checkout.Some? && y.db == db && y.answers == {Answer(e.transaction.value, e.checkout.value)})
      && (e.transaction.None? && e.status != E.Suspended && e.status != E.Completed
          && bill.Invoice? && bill.transaction != 0 && bill.wellFormed ==>
            && y.answers == {Answer(bill.transaction, bill.checkout)}
            && y.db == db.(enrollments := db.enrollments[0 := e.(transaction := Some(bill.transaction),
                                                                 checkout := Some(bill.checkout))]))
      && (e.transaction.None? && bill.Failed? ==> y.db == db && y.answers == {})
  {
    hide Run, Acceptable, Selected, Prepare, After;
    CreatedIsSound(slots);
    RunKeeps(Created(slots), steps);
    var db := Run(Created(slots), steps).db;
    assert db.enrollments[0] in db.enrollments;
    var asked := if call.Accept? then db.request.recommended else db.request.approved;
    ApprovedAsks(db, call);
    PrepareApproved(db, call, facts, asked);
    assert Next(Alone(db), StepPrepare(0, call, facts)) == Holding(db, call, Ready);
    CallConcludes(db, call, bill);
  }

  lemma ApprovedAsks(db: Db, call: Call)
    requires OneEnrollment(db) && ChosenKnown(db) && db.request.status == Approved && SameCall(db.request, call)
    ensures Asked(db, call, if call.Accept? then db.request.recommended else db.request.approved)
  {
    hide SlotsDisjoint, AllWellFormed, Selected;
    if call.Approve? && call.approval.None? {
      SelectedExactly(db.request.slots, db.request.approved, call.approval);
    }
  }

  // ---- The outside ----

  // A payment or another decision moves the enrollment along its life cycle only; a pending
  // request may be rejected, with acceptable slots if any, or cancelled; a recommendation
  // declined.
  lemma OutsideExactly(db: Db, target: E.Status, recommended: seq<Slot>)
    ensures
      var moved := WorldStep(db, StepMove(target));
      && (db.enrollments != [] ==>
            var e := db.enrollments[0];
            var allowed := || (e.status == E.Pending && target in {E.Active, E.Dropped})
                           || (e.status == E.Active && target in {E.Suspended, E.Dropped})
                           || (e.status == E.Suspended && target in {E.Active, E.Dropped});
            moved == if allowed then db.(enrollments := db.enrollments[0 := e.(status := target)]) else db)
      && (db.enrollments == [] ==> moved == db)
    ensures
      var rejected := WorldStep(db, StepReject(recommended));
      if db.request.status == P.RequestStatus.Pending && (recommended == [] || Acceptable(recommended))
      then rejected == db.(request := Request(Rejected, db.request.slots,
                                              if recommended != [] then recommended else db.request.recommended,
                                              db.request.approved))
      else rejected == db
    ensures
      WorldStep(db, StepDecline) == if db.request.status == Rejected && db.request.recommended != []
                                    then db.(request := db.request.(status := Declined)) else db
    ensures
      WorldStep(db, StepCancel) == if db.request.status == P.RequestStatus.Pending
                                   then db.(request := db.request.(status := P.RequestStatus.Cancelled)) else db
  {
    hide Acceptable;
  }
}
