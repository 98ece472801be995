// The outbox statements and the delivery worker as methods over the tables they update.
module ChatWorker {
  import opened Common
  import C = ChatOutbox
  import D = ChatDelivery
  import O = ChatOutcomes

  // What the outside answers in one turn of the worker: its clock, a new lease token, whether
  // the event's subject still exists, the receiver's answer, and the clock when it finishes.
  datatype Turn = Turn(now: int, token: Id, contextFound: bool, accepted: bool, finishedAt: int)

  // ORDER BY created_at, event_id.
  predicate Before(s: C.Store, a: Id, b: Id)
    requires a in s.outbox && b in s.outbox
  {
    s.outbox[a].createdAt < s.outbox[b].createdAt || (s.outbox[a].createdAt == s.outbox[b].createdAt && a <= b)
  }

  // The row a claim takes: the oldest of those that may be claimed.
  ghost predicate First(s: C.Store, now: int, event: Id) {
    C.Claimable(s, event, now) && forall other :: C.Claimable(s, other, now) ==> Before(s, event, other)
  }

  ghost function PickNext(s: C.Store, now: int): Option<Id> {
    if exists e :: First(s, now, e) then
      var e :| First(s, now, e);
      Some(e)
    else None
  }

  // Claim, gate, deliver unless the attempts ran out, and finish.
  function TakeTurn(s: C.Store, turn: Turn, event: Id): C.Store
    requires event in s.outbox
  {
    var claimed := C.Claim(s, event, turn.token, turn.now);
    var attempts := claimed.outbox[event].attempts;
    var ok := turn.contextFound && C.Passes(claimed, event) && attempts <= C.MAX_ATTEMPTS && turn.accepted;
    C.Finish(claimed, event, turn.token, C.Verdict(ok, attempts), C.DelayAfter(ok, attempts), turn.finishedAt)
  }

  // One turn delivers exactly when what the event is about is there, it may be announced and
  // attempts are left, and it settles the row it took and no other.
  lemma TurnSettles(s: C.Store, turn: Turn, event: Id)
    requires event in s.outbox
    ensures
      var after, row := TakeTurn(s, turn, event), s.outbox[event];
      var attempts := row.attempts + 1;
      var accepted := turn.accepted && turn.contextFound && C.Passes(s, event) && attempts <= 12;
      && after.requests == s.requests && after.events == s.events && after.outbox.Keys == s.outbox.Keys
      && (forall e :: e in s.outbox && e != event ==> after.outbox[e] == s.outbox[e])
      && O.Settled(row.(attempts := attempts), after.outbox[event], attempts, accepted, turn.finishedAt)
  {
    O.SecondsAre(s.outbox[event].attempts + 1);
    hide O.Seconds;
  }

  // A pass goes on until nothing may be claimed or its turns are used up.
  ghost function Pass(s: C.Store, turns: seq<Turn>): C.Store
    decreases turns
  {
    if turns == [] then s
    else match PickNext(s, turns[0].now)
      case None => s
      case Some(event) => Pass(TakeTurn(s, turns[0], event), turns[1..])
  }

  // The rows a pass takes, each the oldest that may be claimed then.
  ghost predicate Takes(s: C.Store, turns: seq<Turn>, events: seq<Id>, stores: seq<C.Store>) {
    && |events| <= |turns| && |stores| == |events| + 1 && stores[0] == s
    && forall k :: 0 <= k < |events| ==>
         First(stores[k], turns[k].now, events[k]) && events[k] in stores[k].outbox
         && stores[k + 1] == TakeTurn(stores[k], turns[k], events[k])
  }

  // A pass takes rows as long as it has turns and one may be claimed.
  lemma {:induction false} PassTakesAll(s: C.Store, turns: seq<Turn>) returns (events: seq<Id>, stores: seq<C.Store>)
    ensures Takes(s, turns, events, stores) && stores[|events|] == Pass(s, turns)
    ensures |events| < |turns| ==> forall e :: !C.Claimable(stores[|events|], e, turns[|events|].now)
    decreases turns
  {
    hide TakeTurn, C.Claimable;
    events, stores := [], [s];
    if turns != [] {
      NothingOrFirst(s, turns[0].now);
      if PickNext(s, turns[0].now).Some? {
        var event := PickNext(s, turns[0].now).value;
        var next := TakeTurn(s, turns[0], event);
        var restEvents, restStores := PassTakesAll(next, turns[1..]);
        events, stores := [event] + restEvents, [s] + restStores;
        assert forall k :: 0 < k < |turns| ==> turns[k] == turns[1..][k - 1];
        assert forall k :: 0 < k < |stores| ==> stores[k] == restStores[k - 1];
        assert forall k :: 0 < k < |events| ==> events[k] == restEvents[k - 1];
      }
    }
  }

  // Of the rows that may be claimed, the one created first is taken; the id settles ties.
  lemma NothingOrFirst(s: C.Store, now: int)
    ensures PickNext(s, now).Some? ==>
              var e := PickNext(s, now).value;
              && C.Claimable(s, e, now) && e in s.outbox
              && forall other :: C.Claimable(s, other, now) && other in s.outbox ==>
                   s.outbox[e].createdAt < s.outbox[other].createdAt
                   || (s.outbox[e].createdAt == s.outbox[other].createdAt && e <= other)
    ensures PickNext(s, now).None? ==> forall e :: !C.Claimable(s, e, now)
  {
    if PickNext(s, now).None? {
      forall e ensures !C.Claimable(s, e, now) {
        if C.Claimable(s, e, now) { FirstExists(s, now, e); }
      }
    }
    hide C.Claimable;
  }

  lemma FirstExists(s: C.Store, now: int, event: Id)
    requires C.Claimable(s, event, now)
    ensures exists e :: First(s, now, e)
  {
    var waiting := set e | e in s.outbox && C.Claimable(s, e, now);
    assert event in waiting && waiting <= s.outbox.Keys;
    var e := Oldest(s, waiting);
    assert forall other :: C.Claimable(s, other, now) ==> other in waiting;
    assert First(s, now, e);
  }

  lemma {:induction false} Oldest(s: C.Store, ids: set<Id>) returns (e: Id)
    requires ids != {} && ids <= s.outbox.Keys
    ensures e in ids && forall other :: other in ids ==> Before(s, e, other)
    decreases ids
  {
    var x :| x in ids;
    e := x;
    var rest := ids - {x};
    assert ids == rest + {x};
    if rest != {} {
      var o := Oldest(s, rest);
      if Before(s, o, x) { e := o; }
      forall other | other in ids ensures Before(s, e, other) {
        if other != x { assert other in rest && Before(s, o, other); }
      }
    }
  }

  // ---- A pass is a run of the interleaved system ----

  function TurnSteps(w: Id, turn: Turn, event: Id): seq<C.Step> {
    [C.StepClaim(w, event, turn.token, turn.now), C.StepGate(w, turn.contextFound), C.StepDeliver(w, turn.accepted),
     C.StepFinish(w, turn.finishedAt)]
  }

  ghost function PassSteps(s: C.Store, w: Id, turns: seq<Turn>): seq<C.Step>
    decreases turns
  {
    if turns == [] then []
    else match PickNext(s, turns[0].now)
      case None => []
      case Some(event) => TurnSteps(w, turns[0], event) + PassSteps(TakeTurn(s, turns[0], event), w, turns[1..])
  }

  lemma {:induction false} RunAppend(y: C.System, a: seq<C.Step>, b: seq<C.Step>)
    ensures C.Run(y, a + b) == C.Run(C.Run(y, a), b)
    decreases a
  {
    if a == [] {
      assert a + b == b;
    } else {
      assert (a + b)[0] == a[0] && (a + b)[1..] == a[1..] + b;
      RunAppend(C.Next(y, a[0]), a[1..], b);
    }
  }

  lemma FourSteps(y: C.System, a: C.Step, b: C.Step, c: C.Step, d: C.Step)
    ensures C.Run(y, [a, b, c, d]) == C.Next(C.Next(C.Next(C.Next(y, a), b), c), d)
  {
    hide C.Next;
    var y1 := C.Next(y, a);
    var y2 := C.Next(y1, b);
    var y3 := C.Next(y2, c);
    assert C.Run(y, [a, b, c, d]) == C.Run(y1, [b, c, d]) by { assert [a, b, c, d][1..] == [b, c, d]; }
    assert C.Run(y1, [b, c, d]) == C.Run(y2, [c, d]) by { assert [b, c, d][1..] == [c, d]; }
    assert C.Run(y2, [c, d]) == C.Run(y3, [d]) by { assert [c, d][1..] == [d]; }
    assert C.Run(y3, [d]) == C.Run(C.Next(y3, d), []);
  }

  lemma TurnIsFourSteps(y: C.System, w: Id, turn: Turn, event: Id)
    requires w !in y.workers && turn.token !in y.used && C.Claimable(y.store, event, turn.now)
    ensures var z := C.Run(y, TurnSteps(w, turn, event));
            z.store == TakeTurn(y.store, turn, event) && z.workers == y.workers && z.used == y.used + {turn.token}
  {
    hide C.Claimable, C.Passes, C.Finish, C.RetryDelay;
    D.ClaimableKnown(y.store, event, turn.now);
    FourSteps(y, C.StepClaim(w, event, turn.token, turn.now), C.StepGate(w, turn.contextFound),
              C.StepDeliver(w, turn.accepted), C.StepFinish(w, turn.finishedAt));
    var y1 := C.Next(y, C.StepClaim(w, event, turn.token, turn.now));
    var y2 := C.Next(y1, C.StepGate(w, turn.contextFound));
    var y3 := C.Next(y2, C.StepDeliver(w, turn.accepted));
    assert y3.workers[w].event == event && y3.workers[w].token == turn.token && C.MayFinish(y3.workers[w]);
    assert y.workers == y3.workers - {w};
  }

  lemma {:induction false} PassIsARun(y: C.System, w: Id, turns: seq<Turn>)
    requires w !in y.workers
    requires forall i :: 0 <= i < |turns| ==> turns[i].token !in y.used
    requires forall i, j :: 0 <= i < j < |turns| ==> turns[i].token != turns[j].token
    ensures C.Run(y, PassSteps(y.store, w, turns)).store == Pass(y.store, turns)
    decreases turns
  {
    hide TakeTurn, TurnSteps;
    if turns != [] && PickNext(y.store, turns[0].now).Some? {
      var event := PickNext(y.store, turns[0].now).value;
      TurnIsFourSteps(y, w, turns[0], event);
      var z := C.Run(y, TurnSteps(w, turns[0], event));
      RunAppend(y, TurnSteps(w, turns[0], event), PassSteps(z.store, w, turns[1..]));
      PassIsARun(z, w, turns[1..]);
    }
  }

  class PrivateChatStore {
    var requests: map<Id, C.Request>
    var events: map<Id, C.Event>
    var outbox: map<Id, C.Row>

    ghost function State(): C.Store
      reads this
    {
      C.Store(requests, events, outbox)
    }

    // The bump, the event and its outbox row, in the caller's transaction.
    method Capture(request: Id, kind: C.Kind, bump: bool, event: Id, now: int) returns (error: Option<C.Error>)
      requires request in requests
      modifies this
      ensures var before := if bump then C.Bump(old(State()), request, old(requests)[request].status) else old(State());
              if error.None? then C.Capture(before, request, kind, event, now) == Ok(State())
              else C.Capture(before, request, kind, event, now) == Err(error.value)
    {
      if bump {
        requests := requests[request := requests[request].(version := requests[request].version + 1)];
      }
      if event in events || event in outbox { return Some(C.DuplicateKey); }
      var version := requests[request].version;
      var ids := events.Keys;
      while ids != {}
        invariant ids <= events.Keys
        invariant forall e :: e in events && e !in ids ==>
            !(events[e].request == request && events[e].version == version)
        decreases |ids|
      {
        var e :| e in ids;
        if events[e].request == request && events[e].version == version { return Some(C.DuplicateKey); }
        ids := ids - {e};
      }
      events := events[event := C.Event(request, version, kind)];
      outbox := outbox[event := C.Row(C.Pending, 0, None, now, now)];
      error := None;
    }

    method CreateRequest(request: Id, event: Id, now: int) returns (error: Option<C.Error>)
      modifies this
      ensures error.None? ==> C.CreateRequest(old(State()), request, event, now) == Ok(State())
      ensures error.Some? ==>
          C.CreateRequest(old(State()), request, event, now) == Err(error.value) && State() == old(State())
    {
      hide C.VersionTaken;
      if request in requests { return Some(C.DuplicateKey); }
      var savedRequests, savedEvents, savedOutbox := requests, events, outbox;
      requests := requests[request := C.Request(C.RequestPending, 0, false)];
      error := Capture(request, C.Created, false, event, now);
      if error.Some? { requests, events, outbox := savedRequests, savedEvents, savedOutbox; }
    }

    // Both rejections of a pending request.
    method RejectRequest(request: Id, recommend: bool, event: Id, now: int) returns (error: Option<C.Error>)
      modifies this
      ensures error.None? ==> C.Reject(old(State()), request, recommend, event, now) == Ok(State())
      ensures error.Some? ==>
          C.Reject(old(State()), request, recommend, event, now) == Err(error.value) && State() == old(State())
    {
      hide C.VersionTaken;
      if request !in requests { return Some(C.RequestNotFound); }
      if requests[request].status != C.RequestPending { return Some(C.InvalidTransition); }
      var savedRequests, savedEvents, savedOutbox := requests, events, outbox;
      ghost var row := requests[request];
      ghost var marked := State().(requests := requests[request := row.(recommended := row.recommended || recommend)]);
      if recommend { requests := requests[request := requests[request].(recommended := true)]; }
      requests := requests[request := requests[request].(status := C.RequestRejected)];
      assert requests == marked.requests[request := marked.requests[request].(status := C.RequestRejected)];
      assert C.Bump(State(), request, C.RequestRejected) == C.Bump(marked, request, C.RequestRejected);
      error := Capture(request, C.Rejected, true, event, now);
      if error.Some? { requests, events, outbox := savedRequests, savedEvents, savedOutbox; }
    }

    // UPDATE of the outbox row of the approval that is being reopened.
    method SupersedeCurrent(request: Id)
      requires request in requests
      modifies this`outbox
      ensures State() == C.Supersede(old(State()), request)
    {
      var ids := outbox.Keys;
      ghost var before := outbox;
      ghost var whole := State();
      while ids != {}
        invariant ids <= before.Keys && outbox.Keys == before.Keys
        invariant forall e :: e in ids ==> outbox[e] == before[e]
        invariant forall e :: e in before && e !in ids ==> outbox[e] == C.Supersede(whole, request).outbox[e]
        decreases |ids|
      {
        var e :| e in ids;
        ids := ids - {e};
        if e in events && events[e].request == request && events[e].version == requests[request].version
           && outbox[e].status != C.Sent {
          outbox := outbox[e := outbox[e].(status := C.Superseded, lease := None)];
        }
      }
      assert outbox == C.Supersede(whole, request).outbox;
    }

    method SetStatus(request: Id, status: C.RequestStatus, byParent: bool, event: Id,
                     now: int) returns (error: Option<C.Error>)
      modifies this
      ensures error.None? ==> C.SetStatus(old(State()), request, status, byParent, event, now) == Ok(State())
      ensures error.Some? ==> C.SetStatus(old(State()), request, status, byParent, event,
                                          now) == Err(error.value) && State() == old(State())
    {
      hide C.Supersede, C.VersionTaken;
      if request !in requests { return Some(C.RequestNotFound); }
      var row := requests[request];
      if row.status == status { return None; }
      var savedRequests, savedEvents, savedOutbox := requests, events, outbox;
      requests := requests[request := row.(status := status)];
      if status == C.RequestApproved {
        var kind := C.Approved;
        if byParent {
          if !row.recommended || row.status != C.RequestRejected {
            requests := savedRequests;
            return Some(C.WrongActor);
          }
          kind := C.RecommendationAccepted;
        }
        assert C.Bump(State(), request, status) == C.Bump(old(State()), request, status);
        error := Capture(request, kind, true, event, now);
        if error.Some? {
          requests, events, outbox := savedRequests, savedEvents, savedOutbox;
        }
        return;
      }
      if row.status == C.RequestApproved {
        requests := savedRequests;
        SupersedeCurrent(request);
        requests := requests[request := row.(status := status, version := row.version + 1)];
      }
      error := None;
    }

    // One UPDATE ... RETURNING: takes the oldest row that may be claimed.
    method Claim(token: Id, now: int) returns (event: Option<Id>)
      modifies this`outbox
      ensures event == PickNext(old(State()), now)
      ensures event.None? ==> State() == old(State())
      ensures event.Some? ==>
          First(old(State()), now, event.value) && State() == C.Claim(old(State()), event.value, token, now)
    {
      var ids := outbox.Keys;
      var best: Option<Id> := None;
      while ids != {}
        invariant ids <= outbox.Keys
        invariant best.Some? ==> C.Claimable(State(), best.value, now) && best.value in outbox
        invariant forall e :: e in outbox && e !in ids && C.Claimable(State(), e, now) ==>
            best.Some? && Before(State(), best.value, e)
        decreases |ids|
      {
        var e :| e in ids;
        ids := ids - {e};
        if C.Claimable(C.Store(requests, events, outbox), e, now)
           && (best.None? || Before(C.Store(requests, events, outbox), e, best.value)) {
          best := Some(e);
        }
      }
      if best.None? { return None; }
      event := best;
      assert First(State(), now, best.value);
      outbox := outbox[best.value := outbox[best.value].(status := C.Sending,
                                                         attempts := outbox[best.value].attempts + 1,
                                                         lease := Some(token), availableAt := now + C.LEASE_SECONDS)];
    }

    // UPDATE ... WHERE status = 'sending' AND lease_token = ?.
    method Finish(event: Id, token: Id, status: C.RowStatus, delay: int, now: int)
      modifies this`outbox
      ensures State() == C.Finish(old(State()), event, token, status, delay, now)
      ensures C.Leased(old(State()), event, token) ==>
          event in outbox && outbox[event].status == status && outbox[event].lease.None?
      ensures !C.Leased(old(State()), event, token) ==> outbox == old(outbox)
      ensures forall other :: other in old(outbox) && other != event ==>
          other in outbox && outbox[other] == old(outbox)[other]
    {
      if event in outbox && outbox[event].status == C.Sending && outbox[event].lease == Some(token) {
        outbox := outbox[event := outbox[event].(status := status, availableAt := now + delay, lease := None)];
      }
    }

    method Requeue(event: Id, now: int) returns (error: Option<C.Error>)
      modifies this`outbox
      ensures error.None? ==> C.Requeue(old(State()), event, now) == Ok(State())
      ensures error.Some? ==> C.Requeue(old(State()), event, now) == Err(error.value) && State() == old(State())
      ensures error.None? ==> event in outbox && outbox[event].status == C.Pending && outbox[event].attempts == 0
      ensures forall other :: other in old(outbox) && other != event ==>
          other in outbox && outbox[other] == old(outbox)[other]
    {
      if event !in outbox || outbox[event].status != C.Failed { return Some(C.NotFailed); }
      outbox := outbox[event := outbox[event].(status := C.Pending, attempts := 0, availableAt := now, lease := None)];
      error := None;
    }

    // Whether the event may be announced now.
    method Gate(event: Id) returns (ready: bool)
      ensures ready <==> C.Passes(State(), event)
    {
      if event !in events { return false; }
      var e := events[event];
      if e.request !in requests { return false; }
      if e.kind == C.Approved || e.kind == C.RecommendationAccepted {
        ready := requests[e.request].status == C.RequestApproved && requests[e.request].version == e.version;
      } else {
        ready := true;
      }
    }

    // One bounded pass of the worker.
    method RunOnce(turns: seq<Turn>)
      requires |turns| == 50
      modifies this`outbox
      ensures State() == Pass(old(State()), turns)
    {
      hide First, PickNext, C.Claimable, C.Passes;
      for n := 0 to 50
        invariant Pass(old(State()), turns) == Pass(State(), turns[n..])
      {
        var turn := turns[n];
        assert turns[n..][0] == turn && turns[n..][1..] == turns[n + 1..];
        ghost var s := State();
        var event := Claim(turn.token, turn.now);
        if event.None? { return; }
        ClaimedRow(s, event.value, turn.now);
        var attempts := outbox[event.value].attempts;
        var ready := Gate(event.value);
        var ok := false;
        if ready && turn.contextFound && attempts <= C.MAX_ATTEMPTS { ok := turn.accepted; }
        var status, delay := C.Sent, 0;
        if !ok {
          status := if attempts >= C.MAX_ATTEMPTS then C.Failed else C.Pending;
          delay := C.RetryDelay(attempts);
        }
        Finish(event.value, turn.token, status, delay, turn.finishedAt);
      }
    }
  }

  lemma ClaimedRow(s: C.Store, event: Id, now: int)
    requires First(s, now, event)
    ensures event in s.outbox
  {
  }
}
