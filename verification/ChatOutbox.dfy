// Private-request events and their outbox: versioned capture in the transaction of the
// business change, then leased, fenced and retried delivery in version order.
module ChatOutbox {
  import opened Common
  import opened Backoff

  datatype Kind = Created | Approved | Rejected | RecommendationAccepted

  datatype RequestStatus = RequestPending | RequestApproved | RequestRejected | RequestDeclined | RequestCancelled

  datatype Request = Request(status: RequestStatus, version: nat, recommended: bool)

  datatype Event = Event(request: Id, version: nat, kind: Kind)

  datatype RowStatus = Pending | Sending | Sent | Failed | Superseded

  datatype Row = Row(status: RowStatus, attempts: nat, lease: Option<Id>, availableAt: int, createdAt: int)

  datatype Store = Store(requests: map<Id, Request>, events: map<Id, Event>, outbox: map<Id, Row>)

  datatype Error = RequestNotFound | InvalidTransition | WrongActor | DuplicateKey | NotFailed

  const LEASE_SECONDS := 90
  const MAX_ATTEMPTS := 12

  // ---- Capture ----

  predicate VersionTaken(s: Store, request: Id, version: nat) {
    exists e :: e in s.events && s.events[e].request == request && s.events[e].version == version
  }

  // Inserts the event and its outbox row; the primary key and UNIQUE(request, version) decide.
  function Capture(s: Store, request: Id, kind: Kind, event: Id, now: int): Result<Store, Error>
    requires request in s.requests
  {
    var version := s.requests[request].version;
    if event in s.events || event in s.outbox || VersionTaken(s, request, version) then Err(DuplicateKey)
    else Ok(Store(s.requests, s.events[event := Event(request, version, kind)],
                  s.outbox[event := Row(Pending, 0, None, now, now)]))
  }

  function Bump(s: Store, request: Id, status: RequestStatus): Store
    requires request in s.requests
  {
    s.(requests := s.requests[request := s.requests[request].(status := status,
                                                              version := s.requests[request].version + 1)])
  }

  function CreateRequest(s: Store, request: Id, event: Id, now: int): Result<Store, Error> {
    if request in s.requests then Err(DuplicateKey)
    else Capture(s.(requests := s.requests[request := Request(RequestPending, 0, false)]), request, Created, event, now)
  }

  // Both rejections: with and without recommended slots.
  function Reject(s: Store, request: Id, recommend: bool, event: Id, now: int): Result<Store, Error> {
    if request !in s.requests then Err(RequestNotFound)
    else if s.requests[request].status != RequestPending then Err(InvalidTransition)
    else
      var row := s.requests[request];
      var marked := s.(requests := s.requests[request := row.(recommended := row.recommended || recommend)]);
      Capture(Bump(marked, request, RequestRejected), request, Rejected, event, now)
  }

  function Move(s: Store, request: Id, from: RequestStatus, target: RequestStatus): Result<Store, Error> {
    if request !in s.requests then Err(RequestNotFound)
    else if s.requests[request].status != from then Err(InvalidTransition)
    else Ok(s.(requests := s.requests[request := s.requests[request].(status := target)]))
  }

  function Decline(s: Store, request: Id): Result<Store, Error> {
    if request in s.requests && !s.requests[request].recommended then Err(InvalidTransition)
    else Move(s, request, RequestRejected, RequestDeclined)
  }

  // The outbox row of the current version, unless it was sent already.
  function Supersede(s: Store, request: Id): Store
    requires request in s.requests
  {
    s.(outbox := map e | e in s.outbox ::
      if e in s.events && s.events[e].request == request && s.events[e].version == s.requests[request].version &&
          s.outbox[e].status != Sent
      then s.outbox[e].(status := Superseded, lease := None) else s.outbox[e])
  }

  // Setting the status a request already has changes nothing.
  function SetStatus(s: Store, request: Id, status: RequestStatus, byParent: bool, event: Id,
                     now: int): Result<Store, Error> {
    if request !in s.requests then Err(RequestNotFound)
    else
      var r := s.requests[request];
      if r.status == status then Ok(s)
      else if status == RequestApproved then
        if byParent && !(r.recommended && r.status == RequestRejected) then Err(WrongActor)
        else Capture(Bump(s, request, RequestApproved), request,
                     if byParent then RecommendationAccepted else Approved, event, now)
      else if r.status == RequestApproved then Ok(Bump(Supersede(s, request), request, status))
      else Ok(s.(requests := s.requests[request := r.(status := status)]))
  }

  // ---- Delivery ----

  predicate Blocking(row: Row) {
    row.status == Pending || row.status == Sending || row.status == Failed
  }

  predicate Final(row: Row) {
    row.status == Sent || row.status == Superseded
  }

  predicate Older(s: Store, a: Id, b: Id)
    requires a in s.events && b in s.events
  {
    s.events[a].request == s.events[b].request && s.events[a].version < s.events[b].version
  }

  predicate Claimable(s: Store, event: Id, now: int) {
    && event in s.events && event in s.outbox
    && (s.outbox[event].status == Pending || s.outbox[event].status == Sending) && s.outbox[event].availableAt <= now
    && forall older :: older in s.events && older in s.outbox && Older(s, older, event) ==> !Blocking(s.outbox[older])
  }

  function Claim(s: Store, event: Id, token: Id, now: int): Store
    requires event in s.outbox
  {
    var row := s.outbox[event];
    s.(outbox := s.outbox[event := row.(status := Sending, attempts := row.attempts + 1, lease := Some(token),
                                        availableAt := now + LEASE_SECONDS)])
  }

  predicate Leased(s: Store, event: Id, token: Id) {
    event in s.outbox && s.outbox[event].status == Sending && s.outbox[event].lease == Some(token)
  }

  function Finish(s: Store, event: Id, token: Id, status: RowStatus, delay: int, now: int): Store {
    if !Leased(s, event, token) then s
    else s.(outbox := s.outbox[event := s.outbox[event].(status := status, lease := None, availableAt := now + delay)])
  }

  function Requeue(s: Store, event: Id, now: int): Result<Store, Error> {
    if event !in s.outbox || s.outbox[event].status != Failed then Err(NotFailed)
    else Ok(s.(outbox := s.outbox[event := s.outbox[event].(status := Pending, attempts := 0, lease := None,
                                                            availableAt := now)]))
  }

  predicate Approval(kind: Kind) {
    kind == Approved || kind == RecommendationAccepted
  }

  // The readiness gate: an approval is announced only while the request is approved at
  // exactly the version that was captured.
  predicate Passes(s: Store, event: Id) {
    && event in s.events && s.events[event].request in s.requests
    && (Approval(s.events[event].kind) ==>
          s.requests[s.events[event].request].status == RequestApproved
          && s.requests[s.events[event].request].version == s.events[event].version)
  }

  // ---- The worker's verdict on an attempt ----

  function RetryDelay(attempts: Attempt): nat {
    Delay(attempts, 9)
  }

  function Verdict(ok: bool, attempts: nat): RowStatus {
    if ok then Sent else if attempts >= MAX_ATTEMPTS then Failed else Pending
  }

  function DelayAfter(ok: bool, attempts: Attempt): nat {
    if ok then 0 else RetryDelay(attempts)
  }

  // ---- Interleaved workers ----

  // Claimed, then gated, then perhaps delivered, then finished.
  datatype Phase = Claimed | Gated(open: bool) | Answered(ok: bool)

  datatype Held = Held(event: Id, token: Id, attempts: Attempt, epoch: nat, phase: Phase)

  // One call of Deliver: the event, how often it was requeued before the claim, and the attempt.
  datatype Delivery = Delivery(event: Id, epoch: nat, attempt: nat)

  // The history fields (used, requeues, delivered, deliveries, finished) only record what happened.
  datatype System = System(
    store: Store, workers: map<Id, Held>, used: set<Id>, requeues: map<Id, nat>,
    delivered: set<Delivery>, deliveries: map<Id, nat>, finished: map<Id, nat>)

  datatype Step =
    | StepCreate(request: Id, event: Id, now: int)
    | StepReject(request: Id, recommend: bool, event: Id, now: int)
    | StepCancel(request: Id)
    | StepDecline(request: Id)
    | StepSetStatus(request: Id, status: RequestStatus, byParent: bool, event: Id, now: int)
    | StepClaim(worker: Id, event: Id, token: Id, now: int)
    | StepGate(worker: Id, contextFound: bool)
    | StepDeliver(worker: Id, ok: bool)
    | StepFinish(worker: Id, now: int)
    | StepCrash(worker: Id)
    | StepRequeue(event: Id, now: int)

  function Times(counts: map<Id, nat>, id: Id): nat {
    if id in counts then counts[id] else 0
  }

  predicate MayDeliver(h: Held) {
    h.phase == Gated(true) && h.attempts <= MAX_ATTEMPTS
  }

  predicate MayFinish(h: Held) {
    h.phase.Answered? || (h.phase.Gated? && !MayDeliver(h))
  }

  predicate Succeeded(h: Held) {
    h.phase == Answered(true)
  }

  function Committed(s: Store, r: Result<Store, Error>): Store {
    if r.Ok? then r.value else s
  }

  function BusinessStep(s: Store, step: Step): Store {
    match step
    case StepCreate(request, event, now) => Committed(s, CreateRequest(s, request, event, now))
    case StepReject(request, recommend, event, now) => Committed(s, Reject(s, request, recommend, event, now))
    case StepCancel(request) => Committed(s, Move(s, request, RequestPending, RequestCancelled))
    case StepDecline(request) => Committed(s, Decline(s, request))
    case StepSetStatus(request, status, byParent, event, now) =>
      Committed(s, SetStatus(s, request, status, byParent, event, now))
    case _ => s
  }

  // A step that is not possible in a state is passed over. Clocks are arbitrary; tokens are
  // fresh, as generated UUIDs are.
  function Next(y: System, step: Step): System {
    match step
    case StepClaim(w, event, token, now) =>
      if w in y.workers || token in y.used || !Claimable(y.store, event, now) then y
      else y.(store := Claim(y.store, event, token, now), used := y.used + {token},
              workers := y.workers[w := Held(event, token, y.store.outbox[event].attempts + 1,
                                             Times(y.requeues, event), Claimed)])
    case StepGate(w, contextFound) =>
      if w !in y.workers || !y.workers[w].phase.Claimed? then y
      else y.(workers := y.workers[w := y.workers[w].(phase := Gated(contextFound &&
          Passes(y.store, y.workers[w].event)))])
    case StepDeliver(w, ok) =>
      if w !in y.workers || !MayDeliver(y.workers[w]) then y
      else
        var h := y.workers[w];
        y.(workers := y.workers[w := h.(phase := Answered(ok))],
           delivered := y.delivered + {Delivery(h.event, h.epoch, h.attempts)},
           deliveries := y.deliveries[h.event := Times(y.deliveries, h.event) + 1])
    case StepFinish(w, now) =>
      if w !in y.workers || !MayFinish(y.workers[w]) then y
      else
        var h := y.workers[w];
        y.(store := Finish(y.store, h.event, h.token, Verdict(Succeeded(h), h.attempts),
                           DelayAfter(Succeeded(h), h.attempts), now),
           workers := y.workers - {w},
           finished := if Leased(y.store, h.event, h.token) then y.finished[h.token := Times(y.finished, h.token) + 1]
                       else y.finished)
    case StepCrash(w) => y.(workers := y.workers - {w})
    case StepRequeue(event, now) =>
      var r := Requeue(y.store, event, now);
      if r.Err? then y else y.(store := r.value, requeues := y.requeues[event := Times(y.requeues, event) + 1])
    case _ => y.(store := BusinessStep(y.store, step))
  }

  function Run(y: System, steps: seq<Step>): System
    decreases steps
  {
    if steps == [] then y else Run(Next(y, steps[0]), steps[1..])
  }

  const EMPTY := System(Store(map[], map[], map[]), map[], {}, map[], {}, map[], map[])
}
