// What every run of captures, reopenings, workers, crashes and requeues keeps.
module ChatOutboxTheorems {
  import opened Common
  import opened ChatOutbox

  // ---- The store ----

  ghost predicate Captured(s: Store) {
    && s.events.Keys == s.outbox.Keys
    && forall e :: e in s.events ==>
        s.events[e].request in s.requests && s.events[e].version <= s.requests[s.events[e].request].version
  }

  ghost predicate VersionsDistinct(s: Store) {
    forall a, b :: a in s.events && b in s.events && a != b ==>
        s.events[a].request != s.events[b].request || s.events[a].version != s.events[b].version
  }

  // An approval captured at the current version belongs to a request that is approved.
  ghost predicate ApprovalsCurrent(s: Store) {
    forall e :: e in s.events && Approval(s.events[e].kind) && s.events[e].request in s.requests ==>
      s.events[e].version == s.requests[s.events[e].request].version ==>
          s.requests[s.events[e].request].status == RequestApproved
  }

  // A version 0 or a bumped version that has no event yet.
  ghost predicate VersionFree(s: Store, request: Id) {
    request in s.requests && forall e :: e in s.events && s.events[e].request == request ==>
        s.events[e].version < s.requests[request].version
  }

  predicate Touched(row: Row) {
    row.status == Sending || row.status == Sent || row.status == Failed
  }

  // Every version before one that was ever claimed is finished for good.
  ghost predicate OlderFinal(s: Store, event: Id) {
    event in s.events && forall o :: o in s.events && o in s.outbox && Older(s, o, event) ==> Final(s.outbox[o])
  }

  ghost predicate InOrder(s: Store) {
    forall e :: e in s.events && e in s.outbox && Touched(s.outbox[e]) ==> OlderFinal(s, e)
  }

  ghost predicate LeasesMatch(s: Store) {
    forall e :: e in s.outbox ==> (s.outbox[e].status == Sending <==> s.outbox[e].lease.Some?)
  }

  ghost predicate StoreInv(s: Store) {
    Captured(s) && VersionsDistinct(s) && ApprovalsCurrent(s) && InOrder(s) && LeasesMatch(s)
  }

  // ---- What any step does to the store ----

  ghost predicate RequestsGrow(s: Store, u: Store) {
    forall r :: r in s.requests ==> r in u.requests && s.requests[r].version <= u.requests[r].version
  }

  ghost predicate EventsGrow(s: Store, u: Store) {
    && (forall e :: e in s.events ==> e in u.events && u.events[e] == s.events[e])
    && (forall e, o ::
          e in u.events && e !in s.events && o in s.events && s.events[o].request == u.events[e].request ==>
          s.events[o].version < u.events[e].version)
  }

  ghost predicate FinalKept(s: Store, u: Store) {
    forall e :: e in s.outbox && Final(s.outbox[e]) ==> e in u.outbox && u.outbox[e] == s.outbox[e]
  }

  // Requests, versions and finished rows only accumulate.
  ghost predicate Evolves(s: Store, u: Store) {
    RequestsGrow(s, u) && EventsGrow(s, u) && FinalKept(s, u)
  }

  lemma OlderFinalKept(s: Store, u: Store, event: Id)
    requires Captured(s) && Evolves(s, u) && OlderFinal(s, event)
    ensures OlderFinal(u, event)
  {
    forall o | o in u.events && o in u.outbox && Older(u, o, event) ensures Final(u.outbox[o]) {
      if o in s.events {
        assert Older(s, o, event);
        assert o in s.outbox;
      }
    }
  }

  // ---- Business steps ----

  lemma CaptureEvolves(s: Store, request: Id, kind: Kind, event: Id, now: int)
    requires VersionFree(s, request) && Captured(s)
    ensures var r := Capture(s, request, kind, event, now); r.Ok? ==> Evolves(s, r.value)
    ensures event !in s.events ==> Capture(s, request, kind, event, now).Ok?
  {
  }

  // Order survives any evolution in which no row is newly claimed.
  lemma OrderKept(s: Store, u: Store)
    requires Captured(s) && InOrder(s) && Evolves(s, u)
    requires forall e :: e in u.events && e in u.outbox && Touched(u.outbox[e]) ==>
        e in s.events && e in s.outbox && Touched(s.outbox[e])
    ensures InOrder(u)
  {
    hide Evolves, OlderFinal, Captured;
    forall e | e in u.events && e in u.outbox && Touched(u.outbox[e]) ensures OlderFinal(u, e) {
      OlderFinalKept(s, u, e);
    }
  }

  lemma CaptureKeeps(s: Store, request: Id, kind: Kind, event: Id, now: int)
    requires StoreInv(s) && VersionFree(s, request)
    requires (Approval(kind) ==> s.requests[request].status == RequestApproved)
    ensures var r := Capture(s, request, kind, event, now); r.Ok? ==> StoreInv(r.value) && Evolves(s, r.value)
    ensures event !in s.events ==> Capture(s, request, kind, event, now).Ok?
  {
    hide InOrder, Evolves;
    CaptureEvolves(s, request, kind, event, now);
    var r := Capture(s, request, kind, event, now);
    if r.Ok? {
      OrderKept(s, r.value);
    }
  }

  // Raising the version leaves every captured event behind.
  lemma BumpKeeps(s: Store, request: Id, status: RequestStatus)
    requires StoreInv(s) && request in s.requests
    ensures var u := Bump(s, request, status); StoreInv(u) && Evolves(s, u) && VersionFree(u, request)
  {
    var u := Bump(s, request, status);
    hide InOrder;
    OrderKept(s, u);
  }

  lemma SupersedeEvolves(s: Store, request: Id)
    requires request in s.requests && LeasesMatch(s)
    ensures var u := Supersede(s, request); Evolves(s, u) && LeasesMatch(u)
    ensures var u := Supersede(s, request);
            forall e :: e in u.outbox && Touched(u.outbox[e]) ==> e in s.outbox && Touched(s.outbox[e])
  {
  }

  lemma SupersedeKeeps(s: Store, request: Id)
    requires StoreInv(s) && request in s.requests
    ensures var u := Supersede(s, request); StoreInv(u) && Evolves(s, u)
  {
    hide InOrder, Evolves, Touched;
    var u := Supersede(s, request);
    SupersedeEvolves(s, request);
    assert u.outbox.Keys == s.outbox.Keys;
    OrderKept(s, u);
  }

  lemma EventsGrowTwice(s: Store, t: Store, u: Store)
    requires EventsGrow(s, t) && EventsGrow(t, u)
    ensures EventsGrow(s, u)
  {
    forall e, o | e in u.events && e !in s.events && o in s.events && s.events[o].request == u.events[e].request
      ensures s.events[o].version < u.events[e].version
    {
      assert o in t.events && t.events[o] == s.events[o];
      if e in t.events {
        assert u.events[e] == t.events[e];
      }
    }
  }

  lemma EvolvesTwice(s: Store, t: Store, u: Store)
    requires Evolves(s, t) && Evolves(t, u)
    ensures Evolves(s, u)
  {
    hide EventsGrow;
    EventsGrowTwice(s, t, u);
  }

  // A change of a request's status alone.
  lemma StatusKeeps(s: Store, request: Id, r: Request)
    requires StoreInv(s) && request in s.requests && s.requests[request].version == r.version
    requires s.requests[request].status == RequestApproved ==> r.status == RequestApproved
    ensures var u := s.(requests := s.requests[request := r]); StoreInv(u) && Evolves(s, u)
  {
    var u := s.(requests := s.requests[request := r]);
    hide InOrder;
    OrderKept(s, u);
  }

  // A request nobody captured an event for yet.
  lemma NewRequestKeeps(s: Store, request: Id, r: Request)
    requires StoreInv(s) && request !in s.requests
    ensures var t := s.(requests := s.requests[request := r]); StoreInv(t) && Evolves(s, t) && VersionFree(t, request)
  {
    hide InOrder;
    OrderKept(s, s.(requests := s.requests[request := r]));
  }

  lemma CreateKeeps(s: Store, request: Id, event: Id, now: int)
    requires StoreInv(s)
    ensures var u := Committed(s, CreateRequest(s, request, event, now)); StoreInv(u) && Evolves(s, u)
  {
    hide StoreInv, Evolves, VersionFree, Capture;
    SameEvolves(s);
    if request !in s.requests {
      var r := Request(RequestPending, 0, false);
      var t := s.(requests := s.requests[request := r]);
      NewRequestKeeps(s, request, r);
      CaptureKeeps(t, request, Created, event, now);
      var c := Capture(t, request, Created, event, now);
      if c.Ok? {
        EvolvesTwice(s, t, c.value);
      }
    }
  }

  lemma Parts(s: Store)
    requires StoreInv(s)
    ensures Captured(s) && LeasesMatch(s) && InOrder(s)
  {
  }

  lemma BumpedCaptureKeeps(s: Store, request: Id, status: RequestStatus, kind: Kind, event: Id, now: int)
    requires StoreInv(s) && request in s.requests && (Approval(kind) ==> status == RequestApproved)
    ensures var u := Committed(s, Capture(Bump(s, request, status), request, kind, event, now));
            StoreInv(u) && Evolves(s, u)
    ensures event !in s.events ==> Capture(Bump(s, request, status), request, kind, event, now).Ok?
  {
    hide StoreInv, Capture, VersionFree;
    var t := Bump(s, request, status);
    BumpKeeps(s, request, status);
    CaptureKeeps(t, request, kind, event, now);
    var r := Capture(t, request, kind, event, now);
    if r.Ok? {
      EvolvesTwice(s, t, r.value);
    }
  }

  lemma RejectKeeps(s: Store, request: Id, recommend: bool, event: Id, now: int)
    requires StoreInv(s)
    ensures var u := Committed(s, Reject(s, request, recommend, event, now)); StoreInv(u) && Evolves(s, u)
  {
    hide StoreInv, Capture;
    if request in s.requests && s.requests[request].status == RequestPending {
      var r := s.requests[request].(recommended := s.requests[request].recommended || recommend);
      var t := s.(requests := s.requests[request := r]);
      StatusKeeps(s, request, r);
      BumpedCaptureKeeps(t, request, RequestRejected, Rejected, event, now);
      var u := Committed(t, Capture(Bump(t, request, RequestRejected), request, Rejected, event, now));
      EvolvesTwice(s, t, u);
    }
  }

  lemma ReopenKeeps(s: Store, request: Id, status: RequestStatus)
    requires StoreInv(s) && request in s.requests
    ensures var u := Bump(Supersede(s, request), request, status); StoreInv(u) && Evolves(s, u)
  {
    hide StoreInv, Supersede;
    var t := Supersede(s, request);
    SupersedeKeeps(s, request);
    SupersedeOutboxOnly(s, request);
    BumpKeeps(t, request, status);
    EvolvesTwice(s, t, Bump(t, request, status));
  }

  lemma SupersedeOutboxOnly(s: Store, request: Id)
    requires request in s.requests
    ensures Supersede(s, request).requests == s.requests && Supersede(s, request).events == s.events
  {
  }

  lemma SetStatusKeeps(s: Store, request: Id, status: RequestStatus, byParent: bool, event: Id, now: int)
    requires StoreInv(s)
    ensures var u := Committed(s, SetStatus(s, request, status, byParent, event, now)); StoreInv(u) && Evolves(s, u)
  {
    hide StoreInv, Capture, Bump, Supersede;
    if request in s.requests {
      var r := s.requests[request];
      if r.status == status {
      } else if status == RequestApproved {
        BumpedCaptureKeeps(s, request, RequestApproved, if byParent then RecommendationAccepted else Approved, event,
                           now);
      } else if r.status == RequestApproved {
        ReopenKeeps(s, request, status);
      } else {
        StatusKeeps(s, request, r.(status := status));
      }
    }
  }

  lemma BusinessKeeps(s: Store, step: Step)
    requires StoreInv(s)
    ensures var u := BusinessStep(s, step); StoreInv(u) && Evolves(s, u)
  {
    hide StoreInv, CreateRequest, Reject, SetStatus;
    match step
    case StepCreate(request, event, now) => CreateKeeps(s, request, event, now);
    case StepReject(request, recommend, event, now) => RejectKeeps(s, request, recommend, event, now);
    case StepCancel(request) =>
      if request in s.requests && s.requests[request].status == RequestPending {
        StatusKeeps(s, request, s.requests[request].(status := RequestCancelled));
      }
    case StepDecline(request) =>
      if request in s.requests && s.requests[request].status == RequestRejected {
        StatusKeeps(s, request, s.requests[request].(status := RequestDeclined));
      }
    case StepSetStatus(request, status, byParent, event, now) =>
      SetStatusKeeps(s, request, status, byParent, event, now);
    case _ =>
  }

  // A fresh event id is always captured: no version is ever taken twice.
  lemma CaptureNeverConflicts(s: Store, request: Id, event: Id, now: int, recommend: bool)
    requires StoreInv(s) && event !in s.events
    ensures request !in s.requests ==> CreateRequest(s, request, event, now).Ok?
    ensures request in s.requests && s.requests[request].status == RequestPending ==>
        Reject(s, request, recommend, event, now).Ok?
    ensures request in s.requests && s.requests[request].status != RequestApproved ==>
        SetStatus(s, request, RequestApproved, false, event, now).Ok?
  {
    hide Evolves;
    if request in s.requests {
      BumpedCaptureKeeps(s, request, RequestApproved, Approved, event, now);
      var row := s.requests[request];
      var marked := s.(requests := s.requests[request := row.(recommended := row.recommended || recommend)]);
      StatusKeeps(s, request, marked.requests[request]);
      BumpedCaptureKeeps(marked, request, RequestRejected, Rejected, event, now);
    } else {
      var t := s.(requests := s.requests[request := Request(RequestPending, 0, false)]);
      assert VersionFree(t, request);
    }
  }

  // ---- Delivery steps ----

  lemma RowKeeps(s: Store, event: Id, row: Row)
    requires StoreInv(s) && event in s.outbox && !Final(s.outbox[event])
    requires row.status == Sending <==> row.lease.Some?
    requires Touched(row) ==> OlderFinal(s, event)
    ensures var u := s.(outbox := s.outbox[event := row]); StoreInv(u) && Evolves(s, u)
  {
    var u := s.(outbox := s.outbox[event := row]);
    assert Evolves(s, u);
    forall e | e in u.events && e in u.outbox && Touched(u.outbox[e]) ensures OlderFinal(u, e) {
      OlderFinalKept(s, u, e);
    }
  }

  // A row is claimed only when every older version is finished for good.
  lemma ClaimableOlderFinal(s: Store, event: Id, now: int)
    requires Claimable(s, event, now)
    ensures OlderFinal(s, event)
  {
  }

  lemma SameEvolves(s: Store)
    ensures Evolves(s, s)
  {
  }

  lemma ClaimedKeeps(s: Store, event: Id, token: Id, now: int)
    requires StoreInv(s) && Claimable(s, event, now)
    ensures StoreInv(Claim(s, event, token, now)) && Evolves(s, Claim(s, event, token, now))
  {
    hide StoreInv, Evolves;
    ClaimableOlderFinal(s, event, now);
    RowKeeps(s, event, Claim(s, event, token, now).outbox[event]);
  }

  lemma FinishKeeps(s: Store, event: Id, token: Id, status: RowStatus, delay: int, now: int)
    requires StoreInv(s) && status != Sending && status != Superseded
    ensures StoreInv(Finish(s, event, token, status, delay, now))
    ensures Evolves(s, Finish(s, event, token, status, delay, now))
  {
    hide StoreInv, Evolves;
    SameEvolves(s);
    if Leased(s, event, token) {
      Parts(s);
      RowKeeps(s, event, Finish(s, event, token, status, delay, now).outbox[event]);
    }
  }

  lemma RequeueKeeps(s: Store, event: Id, now: int)
    requires StoreInv(s)
    ensures var u := Committed(s, Requeue(s, event, now)); StoreInv(u) && Evolves(s, u)
  {
    hide StoreInv, Evolves;
    SameEvolves(s);
    if Requeue(s, event, now).Ok? {
      RowKeeps(s, event, Requeue(s, event, now).value.outbox[event]);
    }
  }

  lemma NextKeepsStore(y: System, step: Step)
    requires StoreInv(y.store)
    ensures StoreInv(Next(y, step).store) && Evolves(y.store, Next(y, step).store)
  {
    hide StoreInv, Evolves, Claimable, OlderFinal, BusinessStep, Passes, Claim, Finish, Requeue;
    var s := y.store;
    SameEvolves(s);
    match step
    case StepClaim(w, event, token, now) =>
      if w !in y.workers && token !in y.used && Claimable(s, event, now) {
        ClaimedKeeps(s, event, token, now);
      }
    case StepFinish(w, now) =>
      if w in y.workers && MayFinish(y.workers[w]) {
        var h := y.workers[w];
        FinishKeeps(s, h.event, h.token, Verdict(Succeeded(h), h.attempts), DelayAfter(Succeeded(h), h.attempts), now);
      }
    case StepRequeue(event, now) => RequeueKeeps(s, event, now);
    case StepGate(w, found) =>
    case StepDeliver(w, ok) =>
    case StepCrash(w) =>
    case _ => BusinessKeeps(s, step);
  }
}
