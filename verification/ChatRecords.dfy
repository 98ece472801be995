// What the stored events and outbox rows mean, over every run.
module ChatRecords {
  import opened Common
  import opened ChatOutbox
  import opened ChatOutboxTheorems
  import opened ChatDelivery

  // ---- Events ----

  // The first event of a request, and only it, announces its creation; an acceptance follows
  // a recommendation; an approved request has its approval captured at its current version.
  ghost predicate EventsTell(s: Store) {
    && (forall e :: e in s.events ==> (s.events[e].version == 0 <==> s.events[e].kind == Created))
    && (forall e :: e in s.events && s.events[e].kind == RecommendationAccepted ==>
          s.events[e].request in s.requests && s.requests[s.events[e].request].recommended)
    && (forall r :: r in s.requests && s.requests[r].status == RequestApproved ==> ApprovalCaptured(s, r))
  }

  ghost predicate ApprovalCaptured(s: Store, request: Id)
    requires request in s.requests
  {
    exists e ::
        e in s.events && s.events[e].request == request && Approval(s.events[e].kind) &&
            s.events[e].version == s.requests[request].version
  }

  // The other requests and their events are as before.
  ghost predicate OnlyRequest(s: Store, u: Store, request: Id) {
    && (forall r :: r in u.requests && r != request ==> r in s.requests && u.requests[r] == s.requests[r])
    && (forall e :: e in s.events ==> e in u.events && u.events[e] == s.events[e])
    && (forall r :: r in s.requests && s.requests[r].recommended ==> r in u.requests && u.requests[r].recommended)
  }

  lemma TellAfter(s: Store, u: Store, request: Id)
    requires EventsTell(s) && OnlyRequest(s, u, request)
    requires forall e :: e in u.events && e !in s.events ==>
      && (u.events[e].version == 0 <==> u.events[e].kind == Created)
      && (u.events[e].kind == RecommendationAccepted ==>
          u.events[e].request in u.requests && u.requests[u.events[e].request].recommended)
    requires request in u.requests && u.requests[request].status == RequestApproved ==> ApprovalCaptured(u, request)
    ensures EventsTell(u)
  {
    forall r | r in u.requests && u.requests[r].status == RequestApproved ensures ApprovalCaptured(u, r) {
      if r != request {
        assert ApprovalCaptured(s, r);
        var e :| e in s.events && s.events[e].request == r && Approval(s.events[e].kind) &&
            s.events[e].version == s.requests[r].version;
        assert e in u.events && u.events[e] == s.events[e];
      }
    }
  }

  lemma CreateTells(s: Store, request: Id, event: Id, now: int)
    requires EventsTell(s) && Captured(s)
    ensures EventsTell(Committed(s, CreateRequest(s, request, event, now)))
  {
    hide EventsTell;
    if CreateRequest(s, request, event, now).Ok? {
      TellAfter(s, CreateRequest(s, request, event, now).value, request);
    }
  }

  lemma RejectTells(s: Store, request: Id, recommend: bool, event: Id, now: int)
    requires EventsTell(s)
    ensures EventsTell(Committed(s, Reject(s, request, recommend, event, now)))
  {
    hide EventsTell;
    if Reject(s, request, recommend, event, now).Ok? {
      TellAfter(s, Reject(s, request, recommend, event, now).value, request);
    }
  }

  lemma MoveTells(s: Store, request: Id, from: RequestStatus, target: RequestStatus)
    requires EventsTell(s) && target != RequestApproved
    ensures EventsTell(Committed(s, Move(s, request, from, target)))
  {
    hide EventsTell;
    if Move(s, request, from, target).Ok? {
      TellAfter(s, Move(s, request, from, target).value, request);
    }
  }

  lemma SetStatusTells(s: Store, request: Id, status: RequestStatus, byParent: bool, event: Id, now: int)
    requires EventsTell(s)
    ensures EventsTell(Committed(s, SetStatus(s, request, status, byParent, event, now)))
  {
    hide EventsTell, VersionTaken;
    var r := SetStatus(s, request, status, byParent, event, now);
    if r.Ok? && r.value != s {
      var u := r.value;
      if status == RequestApproved {
        assert event in u.events && u.events[event].request == request && Approval(u.events[event].kind) &&
            u.events[event].version == u.requests[request].version;
      }
      TellAfter(s, u, request);
    }
  }

  lemma NextTells(y: System, step: Step)
    requires EventsTell(y.store) && StoreInv(y.store)
    ensures EventsTell(Next(y, step).store)
  {
    hide EventsTell, CreateRequest, Reject, SetStatus, Move, Claimable, Passes, StoreInv;
    Parts(y.store);
    match step
    case StepCreate(request, event, now) => CreateTells(y.store, request, event, now);
    case StepReject(request, recommend, event, now) => RejectTells(y.store, request, recommend, event, now);
    case StepCancel(request) => MoveTells(y.store, request, RequestPending, RequestCancelled);
    case StepDecline(request) => MoveTells(y.store, request, RequestRejected, RequestDeclined);
    case StepSetStatus(request, status, byParent, event, now) => SetStatusTells(y.store, request, status, byParent,
        event, now);
    case _ => RowsOnly(y, step);
  }

  lemma RowsOnly(y: System, step: Step)
    requires EventsTell(y.store)
    requires step.StepClaim? || step.StepGate? || step.StepDeliver? || step.StepFinish? || step.StepCrash? ||
        step.StepRequeue?
    ensures EventsTell(Next(y, step).store)
  {
    hide Claimable, Passes;
    SameEvents(y.store, Next(y, step).store);
  }

  lemma SameEvents(s: Store, u: Store)
    requires EventsTell(s) && u.requests == s.requests && u.events == s.events
    ensures EventsTell(u)
  {
    forall r | r in u.requests && u.requests[r].status == RequestApproved ensures ApprovalCaptured(u, r) {
      assert ApprovalCaptured(s, r);
      var e :| e in s.events && s.events[e].request == r && Approval(s.events[e].kind) &&
          s.events[e].version == s.requests[r].version;
      assert e in u.events;
    }
  }

  // ---- Rows ----

  // A worker that still holds its lease knows the row's attempts; what it answered it
  // delivered. A row waits again only with attempts left and is sent only after a delivery.
  ghost predicate RowsTell(y: System) {
    && (forall w :: w in y.workers ==>
          var h := y.workers[w];
          && h.token in y.used
          && (Leased(y.store, h.event, h.token) ==> y.store.outbox[h.event].attempts == h.attempts)
          && (h.phase.Answered? ==> Delivery(h.event, h.epoch, h.attempts) in y.delivered))
    && (forall e :: e in y.store.outbox ==> RowTells(y.store.outbox[e], e, y.delivered))
  }

  ghost predicate RowTells(row: Row, event: Id, delivered: set<Delivery>) {
    && (row.status == Pending ==> row.attempts < MAX_ATTEMPTS)
    && (row.status == Sent ==> exists d :: d in delivered && d.event == event)
  }

  // A step on the rows that starts no attempt: waiting, sent and failed rows keep meaning it.
  lemma BusinessRowsTell(y: System, step: Step)
    requires RowsTell(y)
    ensures RowsTell(y.(store := BusinessStep(y.store, step)))
  {
    hide VersionTaken, RowTells;
    var u := BusinessStep(y.store, step);
    BusinessKeepsLeases(y.store, step);
    forall e | e in u.outbox ensures RowTells(u.outbox[e], e, y.delivered) {
      BusinessRowTells(y.store, step, e, y.delivered);
    }
    forall w | w in y.workers && Leased(u, y.workers[w].event, y.workers[w].token)
      ensures u.outbox[y.workers[w].event].attempts == y.workers[w].attempts
    {
      BusinessLeaseOld(y.store, step, y.workers[w].event, y.workers[w].token);
    }
  }

  lemma BusinessRowTells(s: Store, step: Step, e: Id, delivered: set<Delivery>)
    requires e in BusinessStep(s, step).outbox && (e in s.outbox ==> RowTells(s.outbox[e], e, delivered))
    ensures RowTells(BusinessStep(s, step).outbox[e], e, delivered)
  {
    hide VersionTaken;
  }

  lemma BusinessLeaseOld(s: Store, step: Step, event: Id, token: Id)
    requires Leased(BusinessStep(s, step), event, token)
    ensures Leased(s, event, token)
  {
    hide VersionTaken;
  }

  lemma ClaimTells(y: System, step: Step)
    requires RowsTell(y) && step.StepClaim?
    ensures RowsTell(Next(y, step))
  {
    hide Claimable;
    ClaimableKnown(y.store, step.event, step.now);
  }

  lemma FinishTells(y: System, step: Step)
    requires RowsTell(y) && step.StepFinish?
    ensures RowsTell(Next(y, step))
  {
    hide RetryDelay;
  }

  lemma DeliverTells(y: System, step: Step)
    requires RowsTell(y) && step.StepDeliver?
    ensures RowsTell(Next(y, step))
  {
  }

  lemma RequeueTells(y: System, step: Step)
    requires RowsTell(y) && step.StepRequeue?
    ensures RowsTell(Next(y, step))
  {
  }

  lemma NextRowsTell(y: System, step: Step)
    requires RowsTell(y)
    ensures RowsTell(Next(y, step))
  {
    hide RowTells, BusinessStep, Claimable, Passes, RetryDelay;
    match step
    case StepClaim(w, event, token, now) => ClaimTells(y, step);
    case StepFinish(w, now) => FinishTells(y, step);
    case StepDeliver(w, ok) => DeliverTells(y, step);
    case StepRequeue(event, now) => RequeueTells(y, step);
    case StepGate(w, found) =>
    case StepCrash(w) =>
    case _ => BusinessRowsTell(y, step);
  }

  // ---- Over every run ----

  lemma {:induction false} RunTells(y: System, steps: seq<Step>)
    requires StoreInv(y.store) && EventsTell(y.store) && RowsTell(y)
    ensures EventsTell(Run(y, steps).store) && RowsTell(Run(y, steps))
    decreases steps
  {
    hide StoreInv, EventsTell, RowsTell, Next;
    if steps != [] {
      NextKeepsStore(y, steps[0]);
      NextTells(y, steps[0]);
      NextRowsTell(y, steps[0]);
      RunTells(Next(y, steps[0]), steps[1..]);
    }
  }

  lemma RunFromEmptyTells(steps: seq<Step>)
    ensures EventsTell(Run(EMPTY, steps).store) && RowsTell(Run(EMPTY, steps)) && StoreInv(Run(EMPTY, steps).store)
  {
    hide Run;
    assert StoreInv(EMPTY.store) && EventsTell(EMPTY.store) && RowsTell(EMPTY);
    EmptyIsSound();
    RunTells(EMPTY, steps);
    RunKeepsInv(EMPTY, steps);
  }

  // No request is approved without its announcement in the outbox: the capture is part of
  // the approving transaction.
  lemma ApprovedIsInOutbox(steps: seq<Step>, request: Id) returns (event: Id)
    requires var s := Run(EMPTY, steps).store; request in s.requests && s.requests[request].status == RequestApproved
    ensures var s := Run(EMPTY, steps).store;
            && event in s.events && event in s.outbox && s.events[event].request == request
            && Approval(s.events[event].kind) && Passes(s, event)
  {
    hide Run, RowsTell;
    RunFromEmptyTells(steps);
    var s := Run(EMPTY, steps).store;
    assert ApprovalCaptured(s, request);
    event :| event in s.events && s.events[event].request == request && Approval(s.events[event].kind)
      && s.events[event].version == s.requests[request].version;
  }

  // A row is marked sent only after a delivery of it was made, and waits for another attempt
  // only while it has one left.
  lemma SentWasDelivered(steps: seq<Step>, event: Id)
    requires event in Run(EMPTY, steps).store.outbox
    ensures var y := Run(EMPTY, steps);
            && (y.store.outbox[event].status == Sent ==> Of(y.delivered, event) != {})
            && (y.store.outbox[event].status == Pending ==> y.store.outbox[event].attempts < MAX_ATTEMPTS)
  {
    hide Run, EventsTell, StoreInv;
    RunFromEmptyTells(steps);
    var y := Run(EMPTY, steps);
    assert RowTells(y.store.outbox[event], event, y.delivered);
    if y.store.outbox[event].status == Sent {
      var d :| d in y.delivered && d.event == event;
      assert d in Of(y.delivered, event);
    }
  }
}
