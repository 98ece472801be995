// What each change of a private request announces and what becomes of every delivery attempt,
// told from the stored rows alone.
module ChatOutcomes {
  import opened Common
  import opened Backoff
  import opened ChatOutbox

  // ---- Announcements ----

  // The event id is new and the version of the request was not announced yet.
  predicate MayAnnounce(s: Store, request: Id, version: nat, event: Id) {
    && event !in s.events && event !in s.outbox
    && forall e :: e in s.events ==> !(s.events[e].request == request && s.events[e].version == version)
  }

  // The request is as given, and one event about it waits to be delivered at once.
  predicate Announced(r: Result<Store, Error>, s: Store, request: Id, row: Request, event: Id, kind: Kind, now: int) {
    r == Ok(Store(s.requests[request := row], s.events[event := Event(request, row.version, kind)],
                  s.outbox[event := Row(Pending, 0, None, now, now)]))
  }

  lemma CreatedExactly(s: Store, request: Id, event: Id, now: int)
    ensures
      var r := CreateRequest(s, request, event, now);
      if request !in s.requests && MayAnnounce(s, request, 0, event)
      then Announced(r, s, request, Request(RequestPending, 0, false), event, Created, now)
      else r == Err(DuplicateKey)
  {
  }

  lemma RejectedExactly(s: Store, request: Id, recommend: bool, event: Id, now: int)
    ensures
      var r := Reject(s, request, recommend, event, now);
      && (request !in s.requests ==> r == Err(RequestNotFound))
      && (request in s.requests && s.requests[request].status != RequestPending ==> r == Err(InvalidTransition))
      && (request in s.requests && s.requests[request].status == RequestPending ==>
            var q := s.requests[request];
            if MayAnnounce(s, request, q.version + 1, event)
            then Announced(r, s, request, Request(RequestRejected, q.version + 1, q.recommended || recommend), event,
                           Rejected, now)
            else r == Err(DuplicateKey))
  {
    if request in s.requests && s.requests[request].status == RequestPending {
      var q := s.requests[request];
      var marked := s.(requests := s.requests[request := q.(recommended := q.recommended || recommend)]);
      assert Bump(marked, request, RequestRejected).requests ==
             s.requests[request := Request(RequestRejected, q.version + 1, q.recommended || recommend)];
      hide VersionTaken;
      TakenIsAnnounced(Bump(marked, request, RequestRejected), request, q.version + 1, event);
    }
  }

  lemma TakenIsAnnounced(s: Store, request: Id, version: nat, event: Id)
    ensures MayAnnounce(s, request, version, event) <==>
            event !in s.events && event !in s.outbox && !VersionTaken(s, request, version)
  {
  }

  // A pending request can be cancelled, and a rejected one with recommended slots declined;
  // neither is announced.
  lemma ClosedExactly(s: Store, request: Id)
    ensures
      var c, d := Move(s, request, RequestPending, RequestCancelled), Decline(s, request);
      && (request !in s.requests ==> c == Err(RequestNotFound) && d == Err(RequestNotFound))
      && (request in s.requests ==>
            var q := s.requests[request];
            && (if q.status == RequestPending
                then c == Ok(s.(requests := s.requests[request := q.(status := RequestCancelled)]))
                else c == Err(InvalidTransition))
            && (if q.status == RequestRejected && q.recommended
                then d == Ok(s.(requests := s.requests[request := q.(status := RequestDeclined)]))
                else d == Err(InvalidTransition)))
  {
  }

  // An approval is announced at the next version, whoever gives it; a parent gives one only to
  // a recommendation after a rejection.
  lemma ApprovedExactly(s: Store, request: Id, byParent: bool, event: Id, now: int)
    ensures
      var r := SetStatus(s, request, RequestApproved, byParent, event, now);
      && (request !in s.requests ==> r == Err(RequestNotFound))
      && (request in s.requests && s.requests[request].status == RequestApproved ==> r == Ok(s))
      && (request in s.requests && s.requests[request].status != RequestApproved ==>
            var q := s.requests[request];
            if byParent && !(q.recommended && q.status == RequestRejected) then r == Err(WrongActor)
            else if MayAnnounce(s, request, q.version + 1, event)
            then Announced(r, s, request, q.(status := RequestApproved, version := q.version + 1), event,
                           if byParent then RecommendationAccepted else Approved, now)
            else r == Err(DuplicateKey))
  {
    if request in s.requests {
      hide VersionTaken;
      TakenIsAnnounced(Bump(s, request, RequestApproved), request, s.requests[request].version + 1, event);
    }
  }

  // Any other status is only stored; leaving approval moves on to a new version as well and
  // withdraws the approval unless it was delivered.
  lemma StatusSetExactly(s: Store, request: Id, status: RequestStatus, byParent: bool, event: Id, now: int)
    requires status != RequestApproved
    ensures
      var r := SetStatus(s, request, status, byParent, event, now);
      && (request !in s.requests ==> r == Err(RequestNotFound))
      && (request in s.requests ==>
            var q := s.requests[request];
            && r.Ok? && r.value.events == s.events && r.value.outbox.Keys == s.outbox.Keys
            && r.value.requests == s.requests[request :=
                 Request(status, if q.status == RequestApproved then q.version + 1 else q.version, q.recommended)]
            && forall e :: e in s.outbox ==>
                 r.value.outbox[e] ==
                   if q.status == RequestApproved && e in s.events && s.events[e].request == request
                      && s.events[e].version == q.version && s.outbox[e].status != Sent
                   then s.outbox[e].(status := Superseded, lease := None) else s.outbox[e])
  {
  }

  // ---- Claims ----

  // A row is taken exactly when it is pending or its lease ran out, its time has come, and every
  // event of the request with a smaller version was delivered or withdrawn.
  lemma ClaimableExactly(s: Store, event: Id, now: int)
    ensures
      Claimable(s, event, now) <==>
        && event in s.events && event in s.outbox && s.outbox[event].availableAt <= now
        && s.outbox[event].status in {Pending, Sending}
        && forall e :: (e in s.events && e in s.outbox && s.events[e].request == s.events[event].request
                        && s.events[e].version < s.events[event].version) ==>
             s.outbox[e].status in {Sent, Superseded}
  {
  }

  lemma ClaimedExactly(s: Store, event: Id, token: Id, now: int)
    requires event in s.outbox
    ensures Claim(s, event, token, now) ==
            Store(s.requests, s.events,
                  s.outbox[event := Row(Sending, s.outbox[event].attempts + 1, Some(token), now + 90,
                                        s.outbox[event].createdAt)])
  {
  }

  // Another attempt at a failed row starts over; no other row is requeued.
  lemma RequeuedExactly(s: Store, event: Id, now: int)
    ensures
      var r := Requeue(s, event, now);
      if event in s.outbox && s.outbox[event].status == Failed
      then r == Ok(Store(s.requests, s.events,
                         s.outbox[event := Row(Pending, 0, None, now, s.outbox[event].createdAt)]))
      else r == Err(NotFailed)
  {
  }

  // An approval may be announced exactly while the request is approved at its version, any
  // other event while its request is there.
  lemma ReadyExactly(s: Store, event: Id)
    ensures
      Passes(s, event) <==>
        && event in s.events && s.events[event].request in s.requests
        && var q := s.requests[s.events[event].request];
        && (s.events[event].kind == Created || s.events[event].kind == Rejected
            || (q.status == RequestApproved && q.version == s.events[event].version))
  {
  }

  // ---- What becomes of an attempt ----

  function Seconds(attempts: nat): int {
    if attempts <= 1 then 5 else if attempts > 10 then 5 * 512 else 2 * Seconds(attempts - 1)
  }

  lemma SecondsDouble(n: nat)
    requires n <= 9
    ensures Seconds(n + 1) == 5 * Pow2(n)
  {
  }

  lemma SecondsAre(attempts: Attempt)
    ensures Seconds(attempts) == 5 * Pow2(if attempts - 1 < 9 then attempts - 1 else 9)
  {
    assert Pow2(9) == 512;
    if attempts <= 10 { SecondsDouble(attempts - 1); }
  }

  // The row after the attempt that held it: delivered, due again after five seconds doubled for
  // every attempt before, at most nine times, or given up after the twelfth.
  predicate Settled(row: Row, after: Row, attempts: nat, accepted: bool, now: int) {
    && after.attempts == row.attempts && after.createdAt == row.createdAt && after.lease == None
    && (if accepted then after.status == Sent && after.availableAt == now
        else after.status == (if attempts < 12 then Pending else Failed)
             && after.availableAt == now + Seconds(attempts))
  }

  // A worker that answered, or found the gate shut or the attempts used up, and still holds its
  // lease settles its row and no other; one that lost the lease changes nothing. Either way it
  // lets go of the event.
  lemma AttemptSettled(y: System, w: Id, now: int)
    requires w in y.workers
    requires var h := y.workers[w];
             h.phase.Answered? || h.phase == Gated(false) || (h.phase.Gated? && h.attempts > 12)
    ensures
      var h, z := y.workers[w], Next(y, StepFinish(w, now));
      var holds := h.event in y.store.outbox && y.store.outbox[h.event].status == Sending
                   && y.store.outbox[h.event].lease == Some(h.token);
      && z.workers == y.workers - {w} && z.store.requests == y.store.requests && z.store.events == y.store.events
      && (!holds ==> z.store.outbox == y.store.outbox)
      && (holds ==>
            && z.store.outbox.Keys == y.store.outbox.Keys
            && (forall e :: e in y.store.outbox && e != h.event ==> z.store.outbox[e] == y.store.outbox[e])
            && Settled(y.store.outbox[h.event], z.store.outbox[h.event], h.attempts, h.phase == Answered(true), now))
  {
    SecondsAre(y.workers[w].attempts);
    hide Seconds;
  }

  // A worker that holds a claimed event passes the gate exactly when the event is ready and what
  // it is about is still there, and delivers exactly then, with attempts left.
  lemma GateThenDeliver(y: System, w: Id, contextFound: bool, ok: bool)
    requires w in y.workers && y.workers[w].phase == Claimed
    ensures
      var h := y.workers[w];
      var gated := Next(y, StepGate(w, contextFound));
      var answered := Next(gated, StepDeliver(w, ok));
      var goes := contextFound && Passes(y.store, h.event) && h.attempts <= 12;
      && gated.store == y.store && answered.store == y.store
      && w in answered.workers && answered.workers[w].event == h.event && answered.workers[w].token == h.token
      && answered.workers[w].attempts == h.attempts
      && (answered.workers[w].phase == Answered(ok) <==> goes)
      && Times(answered.deliveries, h.event) == Times(y.deliveries, h.event) + if goes then 1 else 0
  {
    hide Passes;
  }

  // Nothing else ends an attempt: a worker that may still deliver does not settle its row.
  lemma NotSettledEarly(y: System, w: Id, now: int)
    requires w in y.workers
    requires var h := y.workers[w]; h.phase == Claimed || (h.phase == Gated(true) && h.attempts <= 12)
    ensures Next(y, StepFinish(w, now)) == y
  {
  }

  // A requeue and a crash, in the midst of everything else.
  lemma RequeuedInBetween(y: System, event: Id, w: Id, now: int)
    ensures
      var z := Next(y, StepRequeue(event, now));
      && z.workers == y.workers
      && (if event in y.store.outbox && y.store.outbox[event].status == Failed
          then Requeue(y.store, event, now) == Ok(z.store) && Times(z.requeues, event) == Times(y.requeues, event) + 1
          else z == y)
    ensures Next(y, StepCrash(w)) == y.(workers := y.workers - {w})
  {
  }
}
