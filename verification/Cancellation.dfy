// A parent's cancellation against payment: the enrollment in this service, its transaction
// in billing, and every interleaving of the two. Billing's side is its stated contract: one
// transaction per enrollment, withdrawn idempotently while unpaid, refused once paid, and
// never paid after it was withdrawn or expired.
module Cancellation {
  import opened Common
  import E = Enrollments

  datatype Transaction = NoTransaction | Unpaid | Paid | Withdrawn | Expired

  // What a cancellation has done; held says whether billing had a transaction to withdraw.
  datatype Phase = Reading | Withdrawing | Dropping(held: bool) | Cancelled(held: bool) | Failed

  // A signup call between its read of the enrollment and its save of the whole row: it asks
  // billing for the invoice, then writes back the status it saw.
  datatype Signup = Asking(seen: E.Status) | Saving(seen: E.Status)

  // onRequest says that the enrollment comes from a private request, whose calls write the
  // payment fields only and may restore an enrollment refused for the platform fee. stored
  // says that the row carries the transaction, so that no later signup asks again.
  datatype World = World(
    onRequest: bool, status: E.Status, payment: E.PaymentStatus, transaction: Transaction, stored: bool,
    cancels: map<Id, Phase>, signups: map<Id, Signup>)

  datatype Step =
    | Begin(c: Id)
    | Read(c: Id)
    | Withdraw(c: Id, expiredAccepted: bool)
    | Drop(c: Id)
    | Crash(c: Id)
    | SignupRead(s: Id)
    | SignupInvoice(s: Id)
    | SignupSave(s: Id)
    | SignupFail(s: Id)
    | CreateInvoice
    | Refuse(payment: E.PaymentStatus)
    | Restore
    | Pay
    | Expire
    | Activate
    | Release
    | Suspend
    | Resume
    | End

  // Active, suspended and completed enrollments never reach billing.
  predicate Cancellable(status: E.Status) {
    status == E.Pending || status == E.Dropped
  }

  predicate InPhase(w: World, c: Id, phase: Phase) {
    c in w.cancels && w.cancels[c] == phase
  }

  function Set(w: World, c: Id, phase: Phase): World {
    w.(cancels := w.cancels[c := phase])
  }

  // Billing's answer to the withdrawal, and what it leaves of the transaction.
  function Withdrawal(w: World, c: Id, expiredAccepted: bool): World {
    match w.transaction
    case NoTransaction => Set(w, c, Dropping(false))
    case Unpaid => Set(w.(transaction := Withdrawn), c, Dropping(true))
    case Withdrawn => Set(w, c, Dropping(true))
    case Expired => Set(w, c, if expiredAccepted then Dropping(true) else Failed)
    case Paid => Set(w, c, Failed)
  }

  // The same key gets the same transaction, whatever became of it.
  function Invoiced(transaction: Transaction): Transaction {
    if transaction == NoTransaction then Unpaid else transaction
  }

  // Dropped because billing refused the invoice.
  predicate Refused(w: World) {
    w.status == E.Dropped && w.payment != E.PaymentPending
  }

  predicate MayBeRestored(w: World) {
    w.onRequest && w.payment == E.PlatformFeeRejected
  }

  function Next(w: World, step: Step): World {
    match step
    case Begin(c) => if c in w.cancels then w else Set(w, c, Reading)
    case Read(c) => if !InPhase(w, c, Reading) then w
                    else Set(w, c, if Cancellable(w.status) then Withdrawing else Failed)
    case Withdraw(c, expiredAccepted) => if !InPhase(w, c, Withdrawing) then w else Withdrawal(w, c, expiredAccepted)
    case Drop(c) =>
      if c !in w.cancels || !w.cancels[c].Dropping? then w
      else if w.status != E.Pending then Set(w, c, Failed)
      else Set(w.(status := E.Dropped), c, Cancelled(w.cancels[c].held))
    case Crash(c) => if c in w.cancels && !w.cancels[c].Cancelled? then Set(w, c, Failed) else w
    case SignupRead(s) =>
      if w.onRequest || s in w.signups || w.stored || Refused(w) then w
      else w.(signups := w.signups[s := Asking(w.status)])
    case SignupInvoice(s) =>
      if s !in w.signups || !w.signups[s].Asking? then w
      else w.(transaction := Invoiced(w.transaction), signups := w.signups[s := Saving(w.signups[s].seen)])
    case SignupSave(s) =>
      if s !in w.signups || !w.signups[s].Saving? then w
      else
        w.(status := w.signups[s].seen, payment := E.PaymentPending, stored := true, signups := w.signups - {s})
    case SignupFail(s) => w.(signups := w.signups - {s})
    case CreateInvoice => w.(transaction := Invoiced(w.transaction))
    case Refuse(payment) =>
      if w.status == E.Pending && payment != E.PaymentPending then w.(status := E.Dropped, payment := payment) else w
    case Restore =>
      if MayBeRestored(w) && w.status == E.Dropped then w.(status := E.Pending, payment := E.PaymentPending) else w
    case Pay => if w.transaction == Unpaid then w.(transaction := Paid) else w
    case Expire => if w.transaction == Unpaid then w.(transaction := Expired) else w
    case Activate => if w.transaction == Paid && w.status == E.Pending then w.(status := E.Active) else w
    case Release => if w.status == E.Pending then w.(status := E.Dropped) else w
    case Suspend => if w.status == E.Active then w.(status := E.Suspended) else w
    case Resume => if w.status == E.Suspended then w.(status := E.Active) else w
    case End => if w.status == E.Active || w.status == E.Suspended then w.(status := E.Dropped) else w
  }

  function Run(w: World, steps: seq<Step>): World
    decreases steps
  {
    if steps == [] then w else Run(Next(w, steps[0]), steps[1..])
  }

  function Start(onRequest: bool): World {
    World(onRequest, E.Pending, E.PaymentPending, NoTransaction, false, map[], map[])
  }

  // ---- What every interleaving keeps ----

  predicate NeverPayable(t: Transaction) {
    t == Withdrawn || t == Expired
  }

  predicate Started(status: E.Status) {
    status == E.Active || status == E.Suspended
  }

  // A withdrawal that found a transaction left it unpayable; only paid enrollments started,
  // and only those were seen started by a signup; only dropped ones carry a refusal.
  ghost predicate Inv(w: World) {
    && (w.payment != E.PaymentPending ==> w.status == E.Dropped)
    && (forall c :: c in w.cancels && (w.cancels[c] == Dropping(true) || w.cancels[c] == Cancelled(true)) ==>
        NeverPayable(w.transaction))
    && (Started(w.status) ==> w.transaction == Paid)
    && (forall s :: s in w.signups && Started(w.signups[s].seen) ==> w.transaction == Paid)
  }

  lemma NextKeepsInv(w: World, step: Step)
    requires Inv(w)
    ensures Inv(Next(w, step))
    ensures NeverPayable(w.transaction) ==> NeverPayable(Next(w, step).transaction)
  {
  }

  lemma {:induction false} RunKeepsInv(w: World, steps: seq<Step>)
    requires Inv(w)
    ensures Inv(Run(w, steps))
    ensures NeverPayable(w.transaction) ==> NeverPayable(Run(w, steps).transaction)
    decreases steps
  {
    hide Inv, Next;
    if steps != [] {
      NextKeepsInv(w, steps[0]);
      RunKeepsInv(Next(w, steps[0]), steps[1..]);
    }
  }

  // ---- Never paid ----

  // A cancellation that succeeded after billing held a transaction: that transaction is
  // never paid, whatever happens later.
  lemma CancelledIsNeverPaid(onRequest: bool, before: seq<Step>, after: seq<Step>, c: Id)
    requires InPhase(Run(Start(onRequest), before), c, Cancelled(true))
    ensures Run(Run(Start(onRequest), before), after).transaction != Paid
  {
    hide Run, Next;
    RunKeepsInv(Start(onRequest), before);
    RunKeepsInv(Run(Start(onRequest), before), after);
  }

  // A cancellation that has not reached billing when the payment settles never succeeds and
  // never touches the enrollment.
  lemma {:induction false} PaidIsUntouched(w: World, steps: seq<Step>, c: Id)
    requires w.transaction == Paid && (c in w.cancels ==> w.cancels[c] in {Reading, Withdrawing, Failed})
    ensures c in Run(w, steps).cancels ==> Run(w, steps).cancels[c] in {Reading, Withdrawing, Failed}
    ensures Next(Run(w, steps), Drop(c)) == Run(w, steps)
    decreases steps
  {
    if steps != [] {
      PaidIsUntouched(Next(w, steps[0]), steps[1..], c);
    }
  }

  // An invoice withdrawn from under a started enrollment would be an enrollment without
  // payment: no interleaving reaches it.
  lemma StartedIsPaid(onRequest: bool, steps: seq<Step>)
    ensures var w := Run(Start(onRequest), steps); Started(w.status) ==> w.transaction == Paid
  {
    hide Run;
    RunKeepsInv(Start(onRequest), steps);
  }

  // When billing lets a cancellation go on, payment is excluded for good exactly when there
  // was a transaction to withdraw.
  lemma WithdrawalSafeExactly(onRequest: bool, before: seq<Step>, c: Id, expiredAccepted: bool)
    requires InPhase(Run(Start(onRequest), before), c, Withdrawing)
    requires var w := Next(Run(Start(onRequest), before), Withdraw(c, expiredAccepted));
             c in w.cancels && w.cancels[c].Dropping?
    ensures (forall after :: Run(Next(Run(Start(onRequest), before), Withdraw(c, expiredAccepted)),
                                 after).transaction != Paid) <==>
            Run(Start(onRequest), before).transaction != NoTransaction
  {
    var w := Run(Start(onRequest), before);
    hide Run;
    RunKeepsInv(Start(onRequest), before);
    var withdrawn := Next(w, Withdraw(c, expiredAccepted));
    NextKeepsInv(w, Withdraw(c, expiredAccepted));
    if w.transaction != NoTransaction {
      forall after ensures Run(withdrawn, after).transaction != Paid {
        RunKeepsInv(withdrawn, after);
      }
    } else {
      PayLater(withdrawn);
    }
  }

  lemma PayLater(w: World)
    requires w.transaction == NoTransaction
    ensures Run(w, [CreateInvoice, Pay]) == w.(transaction := Paid)
  {
    Unroll(w, CreateInvoice, [Pay]);
    Unroll(Next(w, CreateInvoice), Pay, []);
  }

  // A cancellation that nothing interleaves with, then anything.
  function CancelSteps(c: Id, rest: seq<Step>): seq<Step> {
    [Begin(c)] + ([Read(c)] + ([Withdraw(c, true)] + ([Drop(c)] + rest)))
  }

  lemma CancelAlone(w: World, c: Id, rest: seq<Step>)
    requires w.status == E.Pending && c !in w.cancels && (w.transaction == NoTransaction || w.transaction == Unpaid)
    ensures var held := w.transaction == Unpaid;
            var done := Set(w.(status := E.Dropped, transaction := if held then Withdrawn else NoTransaction), c,
                            Cancelled(held));
            Run(w, CancelSteps(c, rest)) == Run(done, rest)
  {
    var held := w.transaction == Unpaid;
    var withdrawn := w.(transaction := if held then Withdrawn else NoTransaction);
    assert Next(w, Begin(c)) == Set(w, c, Reading);
    assert Next(Set(w, c, Reading), Read(c)) == Set(w, c, Withdrawing);
    assert Next(Set(w, c, Withdrawing), Withdraw(c, true)) == Set(withdrawn, c, Dropping(held));
    assert Next(Set(withdrawn, c, Dropping(held)), Drop(c)) == Set(withdrawn.(status := E.Dropped), c, Cancelled(held));
    hide Next, Run, Set;
    Unroll(w, Begin(c), [Read(c)] + ([Withdraw(c, true)] + ([Drop(c)] + rest)));
    Unroll(Set(w, c, Reading), Read(c), [Withdraw(c, true)] + ([Drop(c)] + rest));
    Unroll(Set(w, c, Withdrawing), Withdraw(c, true), [Drop(c)] + rest);
    Unroll(Set(withdrawn, c, Dropping(held)), Drop(c), rest);
  }

  // Without a transaction at the withdrawal, a later invoice can still be paid for a seat
  // that is already gone.
  lemma CancelledBeforeInvoiceMayBePaid(onRequest: bool)
    ensures var w := Run(Start(onRequest), CancelSteps(1, [CreateInvoice, Pay]));
            InPhase(w, 1, Cancelled(false)) && w.status == E.Dropped && w.transaction == Paid
  {
    hide Run, Next;
    CancelAlone(Start(onRequest), 1, [CreateInvoice, Pay]);
    PayLater(Set(Start(onRequest).(status := E.Dropped), 1, Cancelled(false)));
  }

  lemma Unroll(w: World, step: Step, rest: seq<Step>)
    ensures Run(w, [step] + rest) == Run(Next(w, step), rest)
  {
    assert ([step] + rest)[1..] == rest;
  }

  // ---- Staying dropped ----

  // No signup is under way that saw the enrollment before it was dropped.
  predicate NoStaleSignup(w: World) {
    forall s :: s in w.signups ==> w.signups[s].seen == E.Dropped
  }

  // A dropped enrollment stays dropped exactly when no signup that read it earlier has its
  // save still to come, and a private request cannot restore it.
  lemma StaysDroppedExactly(w: World)
    requires w.status == E.Dropped
    ensures (forall after :: Run(w, after).status == E.Dropped) <==> NoStaleSignup(w) && !MayBeRestored(w)
  {
    if MayBeRestored(w) {
      RefusedMayReturn(w);
    } else if NoStaleSignup(w) {
      forall after ensures Run(w, after).status == E.Dropped {
        DroppedForGood(w, after);
      }
    } else {
      var s :| s in w.signups && w.signups[s].seen != E.Dropped;
      SaveLater(w, s);
    }
  }

  lemma {:induction false} DroppedForGood(w: World, steps: seq<Step>)
    requires w.status == E.Dropped && NoStaleSignup(w) && !MayBeRestored(w)
    ensures Run(w, steps).status == E.Dropped
    decreases steps
  {
    if steps != [] {
      DroppedForGood(Next(w, steps[0]), steps[1..]);
    }
  }

  lemma RefusedMayReturn(w: World)
    requires w.status == E.Dropped && MayBeRestored(w)
    ensures Run(w, [Restore]).status == E.Pending
  {
    Unroll(w, Restore, []);
    assert [Restore] + [] == [Restore];
  }

  // A successful cancellation never drops a refused enrollment, so what it dropped stays
  // dropped exactly when no signup that read it earlier is under way.
  lemma CancelledStaysDroppedExactly(onRequest: bool, before: seq<Step>, c: Id)
    requires var w := Run(Start(onRequest), before); c in w.cancels && w.cancels[c].Dropping? && w.status == E.Pending
    ensures var done := Next(Run(Start(onRequest), before), Drop(c));
            && InPhase(done, c, Cancelled(done.cancels[c].held)) && done.status == E.Dropped
            && ((forall after :: Run(done, after).status == E.Dropped) <==>
                NoStaleSignup(Run(Start(onRequest), before)))
  {
    hide Run;
    RunKeepsInv(Start(onRequest), before);
    StaysDroppedExactly(Next(Run(Start(onRequest), before), Drop(c)));
  }

  lemma SaveLater(w: World, s: Id)
    requires s in w.signups
    ensures Run(w, [SignupInvoice(s), SignupSave(s)]).status == w.signups[s].seen
  {
    Unroll(w, SignupInvoice(s), [SignupSave(s)]);
    Unroll(Next(w, SignupInvoice(s)), SignupSave(s), []);
  }

  // The call that created the invoice saves its earlier copy of the row: the successful
  // cancellation in between is undone, though the transaction stays withdrawn.
  lemma CancelledMayReturn()
    ensures var w := Run(Start(false), [SignupRead(7)] + ([SignupInvoice(7)] + CancelSteps(1, [SignupSave(7)])));
            InPhase(w, 1, Cancelled(true)) && w.status == E.Pending && w.transaction == Withdrawn
  {
    var asking := Start(false).(signups := map[7 := Asking(E.Pending)]);
    var saving := Start(false).(transaction := Unpaid, signups := map[7 := Saving(E.Pending)]);
    var done := Set(saving.(status := E.Dropped, transaction := Withdrawn), 1, Cancelled(true));
    assert Next(Start(false), SignupRead(7)) == asking;
    assert Next(asking, SignupInvoice(7)) == saving;
    SaveReturns(done);
    hide Next, Run, CancelSteps;
    Unroll(Start(false), SignupRead(7), [SignupInvoice(7)] + CancelSteps(1, [SignupSave(7)]));
    Unroll(asking, SignupInvoice(7), CancelSteps(1, [SignupSave(7)]));
    CancelAlone(saving, 1, [SignupSave(7)]);
  }

  lemma SaveReturns(w: World)
    requires w.signups == map[7 := Saving(E.Pending)]
    ensures var z := Run(w, [SignupSave(7)]);
            z.status == E.Pending && z.transaction == w.transaction && z.cancels == w.cancels
  {
    Unroll(w, SignupSave(7), []);
    assert [SignupSave(7)] + [] == [SignupSave(7)];
  }

  // ---- What a call or a notice comes to by itself ----

  // A cancellation that nothing interleaves with: a started or completed enrollment and a paid
  // transaction are refused and left alone; an unpaid transaction is withdrawn in any case, and
  // a pending enrollment dropped.
  lemma CancellationExactly(w: World, c: Id, expiredAccepted: bool)
    requires c !in w.cancels
    ensures
      var end := Next(Next(Next(Next(w, Begin(c)), Read(c)), Withdraw(c, expiredAccepted)), Drop(c));
      var refused := || w.status in {E.Active, E.Suspended, E.Completed} || w.transaction == Paid
                     || (w.transaction == Expired && !expiredAccepted);
      if refused then end == w.(cancels := w.cancels[c := Failed])
      else
        end == w.(transaction := if w.transaction == Unpaid then Withdrawn else w.transaction, status := E.Dropped,
                  cancels := w.cancels[c := if w.status == E.Pending then Cancelled(w.transaction != NoTransaction)
                                            else Failed])
  {
    var w1, w2 := Set(w, c, Reading), Set(w, c, Withdrawing);
    assert Next(w, Begin(c)) == w1;
    if Cancellable(w.status) {
      assert Next(w1, Read(c)) == w2;
      WithdrawThenDrop(w, c, expiredAccepted);
    } else {
      assert Next(w1, Read(c)) == Set(w, c, Failed);
      NothingAfterFailure(Set(w, c, Failed), c, expiredAccepted);
    }
    hide Next;
  }

  lemma NothingAfterFailure(w: World, c: Id, expiredAccepted: bool)
    requires InPhase(w, c, Failed)
    ensures Next(w, Withdraw(c, expiredAccepted)) == w && Next(w, Drop(c)) == w
  {
  }

  lemma WithdrawThenDrop(w: World, c: Id, expiredAccepted: bool)
    requires Cancellable(w.status)
    ensures
      var end := Next(Next(Set(w, c, Withdrawing), Withdraw(c, expiredAccepted)), Drop(c));
      if w.transaction == Paid || (w.transaction == Expired && !expiredAccepted)
      then end == w.(cancels := w.cancels[c := Failed])
      else
        end == w.(transaction := if w.transaction == Unpaid then Withdrawn else w.transaction, status := E.Dropped,
                  cancels := w.cancels[c := if w.status == E.Pending then Cancelled(w.transaction != NoTransaction)
                                            else Failed])
  {
    var left := w.(transaction := if w.transaction == Unpaid then Withdrawn else w.transaction);
    var phase := if w.transaction == Paid || (w.transaction == Expired && !expiredAccepted) then Failed
                 else Dropping(w.transaction != NoTransaction);
    Withdraws(w, c, expiredAccepted);
    hide Next;
    if phase == Failed {
      NothingAfterFailure(Set(left, c, Failed), c, expiredAccepted);
    } else {
      Drops(left, c, w.transaction != NoTransaction);
    }
  }

  lemma Withdraws(w: World, c: Id, expiredAccepted: bool)
    ensures
      Next(Set(w, c, Withdrawing), Withdraw(c, expiredAccepted)) ==
        Set(w.(transaction := if w.transaction == Unpaid then Withdrawn else w.transaction), c,
            if w.transaction == Paid || (w.transaction == Expired && !expiredAccepted) then Failed
            else Dropping(w.transaction != NoTransaction))
  {
    var asked := Set(w, c, Withdrawing);
    assert Next(asked, Withdraw(c, expiredAccepted)) == Withdrawal(asked, c, expiredAccepted);
    assert forall phase :: Set(asked, c, phase) == Set(w, c, phase);
    hide Next;
  }

  lemma Drops(w: World, c: Id, held: bool)
    requires Cancellable(w.status)
    ensures Next(Set(w, c, Dropping(held)), Drop(c)) ==
            Set(w.(status := E.Dropped), c, if w.status == E.Pending then Cancelled(held) else Failed)
  {
    var asked := Set(w, c, Dropping(held));
    assert forall phase :: Set(asked, c, phase) == Set(w, c, phase);
  }

  // A signup that nothing interleaves with gets the one transaction of its enrollment and
  // stores it; the payment then starts the enrollment.
  lemma SignupThenPayment(w: World, s: Id)
    requires !w.onRequest && !w.stored && w.status == E.Pending && w.payment == E.PaymentPending
    requires s !in w.signups && w.transaction == NoTransaction
    ensures
      var signed := Next(Next(Next(w, SignupRead(s)), SignupInvoice(s)), SignupSave(s));
      var started := Next(Next(signed, Pay), Activate);
      && signed.transaction == Unpaid && signed.stored && signed.status == E.Pending && signed.signups == w.signups
      && started.transaction == Paid && started.status == E.Active
      && Next(signed, Activate) == signed
  {
  }

  // Billing pays or lets expire what is unpaid, and keeps the one transaction it made.
  lemma BillingExactly(w: World)
    ensures Next(w, Pay) == if w.transaction == Unpaid then w.(transaction := Paid) else w
    ensures Next(w, Expire) == if w.transaction == Unpaid then w.(transaction := Expired) else w
    ensures Next(w, CreateInvoice) == if w.transaction == NoTransaction then w.(transaction := Unpaid) else w
  {
  }

  // The notices on an enrollment move it along its life cycle; a refusal drops it with its
  // reason while it waits, and only a private one refused for the platform fee is restored.
  lemma NoticesExactly(w: World, payment: E.PaymentStatus)
    ensures Next(w, Activate).status ==
            if w.status == E.Pending && w.transaction == Paid then E.Active else w.status
    ensures Next(w, Release).status == if w.status == E.Pending then E.Dropped else w.status
    ensures Next(w, Suspend).status == if w.status == E.Active then E.Suspended else w.status
    ensures Next(w, Resume).status == if w.status == E.Suspended then E.Active else w.status
    ensures Next(w, End).status == if w.status in {E.Active, E.Suspended} then E.Dropped else w.status
    ensures var refused := Next(w, Refuse(payment));
            if w.status == E.Pending && payment != E.PaymentPending
            then refused == w.(status := E.Dropped, payment := payment) else refused == w
    ensures var restored := Next(w, Restore);
            if w.onRequest && w.status == E.Dropped && w.payment == E.PlatformFeeRejected
            then restored == w.(status := E.Pending, payment := E.PaymentPending) else restored == w
  {
  }

  // A signup of an enrollment that stores no invoice goes on with the status it read, unless
  // the enrollment was dropped for a refusal: then it is answered at once.
  lemma SignupReadExactly(w: World, s: Id)
    requires !w.onRequest && s !in w.signups
    ensures
      var z := Next(w, SignupRead(s));
      if w.stored || (w.status == E.Dropped && w.payment in {E.PlatformFeeRejected, E.VoucherRejected}) then z == w
      else z == w.(signups := w.signups[s := Asking(w.status)])
  {
  }

  // A call that began goes on from where it is, and one that stops before its end has failed.
  lemma CallStopsExactly(w: World, c: Id)
    requires c in w.cancels
    ensures Next(w, Begin(c)) == w
    ensures Next(w, Crash(c)) ==
            w.(cancels := w.cancels[c := if w.cancels[c].Cancelled? then w.cancels[c] else Failed])
  {
    assert w.cancels[c := w.cancels[c]] == w.cancels;
  }
}
