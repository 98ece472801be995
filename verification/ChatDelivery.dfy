// Ordering, fencing and bounded retries of outbox delivery over every run.
module ChatDelivery {
  import opened Common
  import opened Backoff
  import opened ChatOutbox
  import opened ChatOutboxTheorems

  // ---- Ordered delivery ----

  // Every worker, even one whose lease expired, holds an event whose elders are finished.
  ghost predicate HeldInOrder(y: System) {
    forall w :: w in y.workers ==> OlderFinal(y.store, y.workers[w].event)
  }

  lemma NextKeepsHeld(y: System, step: Step)
    requires StoreInv(y.store) && HeldInOrder(y)
    ensures HeldInOrder(Next(y, step))
  {
    hide StoreInv, Evolves, OlderFinal, Claimable, BusinessStep, Finish, Requeue, Passes;
    NextKeepsStore(y, step);
    var z := Next(y, step);
    Parts(y.store);
    forall w | w in z.workers ensures OlderFinal(z.store, z.workers[w].event) {
      if w in y.workers {
        OlderFinalKept(y.store, z.store, y.workers[w].event);
      } else {
        ClaimableOlderFinal(y.store, step.event, step.now);
        OlderFinalKept(y.store, z.store, step.event);
      }
    }
  }

  // ---- Fencing ----

  // The token is no row's lease and never will be again.
  ghost predicate Spent(y: System, token: Id) {
    token in y.used && forall e :: e in y.store.outbox ==> y.store.outbox[e].lease != Some(token)
  }

  // Leases are used tokens, no two rows share one, and a finished token is spent.
  ghost predicate Fenced(y: System) {
    && (forall e :: e in y.store.outbox && y.store.outbox[e].lease.Some? ==> y.store.outbox[e].lease.value in y.used)
    && (forall a, b :: a in y.store.outbox && b in y.store.outbox && a != b && y.store.outbox[a].lease.Some? ==>
          y.store.outbox[a].lease != y.store.outbox[b].lease)
    && (forall t :: t in y.finished ==> Spent(y, t) && y.finished[t] == 1)
  }

  // What no step but a claim does: give a row a lease, or lower its attempts without a requeue.
  ghost predicate LeasesDrop(s: Store, u: Store) {
    && (forall e :: e in s.outbox ==>
        e in u.outbox && (u.outbox[e].lease == s.outbox[e].lease || u.outbox[e].lease.None?))
    && (forall e :: e in u.outbox && e !in s.outbox ==> u.outbox[e].lease.None?)
  }

  ghost predicate AttemptsKept(s: Store, u: Store) {
    forall e :: e in s.outbox ==> e in u.outbox && u.outbox[e].attempts == s.outbox[e].attempts
  }

  lemma BusinessKeepsLeases(s: Store, step: Step)
    ensures LeasesDrop(s, BusinessStep(s, step)) && AttemptsKept(s, BusinessStep(s, step))
  {
    hide VersionTaken;
  }

  lemma FinishKeepsLeases(s: Store, event: Id, token: Id, status: RowStatus, delay: int, now: int)
    ensures LeasesDrop(s, Finish(s, event, token, status, delay, now))
    ensures AttemptsKept(s, Finish(s, event, token, status, delay, now))
  {
  }

  // A step that drops leases keeps the fence; the history may gain one finished token.
  lemma DropKeepsFence(y: System, z: System)
    requires Fenced(y) && LeasesDrop(y.store, z.store) && z.used == y.used
    requires z.finished == y.finished || exists t ::
                                           t in y.used && t !in y.finished && z.finished == y.finished[t := 1] &&
                                               Spent(z, t)
    ensures Fenced(z)
  {
  }

  lemma FinishSpends(y: System, event: Id, token: Id, status: RowStatus, delay: int, now: int)
    requires Fenced(y) && Leased(y.store, event, token)
    ensures Spent(y.(store := Finish(y.store, event, token, status, delay, now)), token) && token in y.used
    ensures token !in y.finished
  {
  }

  lemma ClaimKeepsFence(y: System, step: Step)
    requires Fenced(y) && step.StepClaim?
    ensures Fenced(Next(y, step))
  {
    hide Claimable;
    assert Claimable(y.store, step.event, step.now) ==>
        step.event in y.store.outbox by { ClaimableKnown(y.store, step.event, step.now); }
  }

  lemma ClaimableKnown(s: Store, event: Id, now: int)
    ensures Claimable(s, event, now) ==> event in s.outbox
  {
  }

  lemma NextKeepsFence(y: System, step: Step)
    requires Fenced(y)
    ensures Fenced(Next(y, step))
  {
    hide Fenced, BusinessStep, Claimable, Passes, Finish, Spent;
    var z := Next(y, step);
    match step
    case StepClaim(w, event, token, now) => ClaimKeepsFence(y, step);
    case StepFinish(w, now) =>
      if w in y.workers && MayFinish(y.workers[w]) {
        var h := y.workers[w];
        FinishKeepsLeases(y.store, h.event, h.token, Verdict(Succeeded(h), h.attempts),
                          DelayAfter(Succeeded(h), h.attempts), now);
        if Leased(y.store, h.event, h.token) {
          FinishSpends(y, h.event, h.token, Verdict(Succeeded(h), h.attempts), DelayAfter(Succeeded(h), h.attempts),
                       now);
          SpentStore(y.(store := z.store), z, h.token);
        }
        DropKeepsFence(y, z);
      }
    case StepRequeue(event, now) => DropKeepsFence(y, z);
    case StepGate(w, found) => DropKeepsFence(y, z);
    case StepDeliver(w, ok) => DropKeepsFence(y, z);
    case StepCrash(w) => DropKeepsFence(y, z);
    case _ =>
      BusinessKeepsLeases(y.store, step);
      DropKeepsFence(y, z);
  }

  lemma SpentStore(y: System, z: System, token: Id)
    requires Spent(y, token) && z.store == y.store && z.used == y.used
    ensures Spent(z, token)
  {
  }

  // ---- Counting deliveries ----

  function Of(delivered: set<Delivery>, event: Id): set<Delivery> {
    set d | d in delivered && d.event == event
  }

  // An attempt of an event, of its current epoch at most as far as the row has counted.
  ghost predicate Counted(y: System, event: Id, epoch: nat, attempt: nat) {
    && event in y.store.outbox && epoch <= Times(y.requeues, event)
    && (epoch == Times(y.requeues, event) ==> attempt <= y.store.outbox[event].attempts)
  }

  ghost predicate DeliveriesKnown(y: System) {
    forall d :: d in y.delivered ==> Counted(y, d.event, d.epoch, d.attempt) && 1 <= d.attempt <= MAX_ATTEMPTS
  }

  ghost predicate HeldCounted(y: System) {
    && (forall w :: w in y.workers ==>
          var h := y.workers[w];
          Counted(y, h.event, h.epoch, h.attempts) && (!h.phase.Answered? ==>
              Delivery(h.event, h.epoch, h.attempts) !in y.delivered))
    && (forall v, w :: v in y.workers && w in y.workers && v != w ==>
          Delivery(y.workers[v].event, y.workers[v].epoch, y.workers[v].attempts)
          != Delivery(y.workers[w].event, y.workers[w].epoch, y.workers[w].attempts))
  }

  ghost predicate CountsExact(y: System) {
    forall e :: Times(y.deliveries, e) == |Of(y.delivered, e)|
  }

  ghost predicate Bounded(y: System) {
    DeliveriesKnown(y) && HeldCounted(y) && CountsExact(y)
  }

  // The same claim, perhaps further along.
  predicate SameClaim(h: Held, later: Held) {
    later.event == h.event && later.epoch == h.epoch && later.attempts == h.attempts && (h.phase.Answered? ==>
        later.phase.Answered?)
  }

  // A step that counts nothing new keeps what was counted.
  lemma QuietKeepsBounded(y: System, z: System)
    requires Bounded(y) && AttemptsKept(y.store, z.store)
    requires z.requeues == y.requeues && z.delivered == y.delivered && z.deliveries == y.deliveries
    requires forall w :: w in z.workers ==> w in y.workers && SameClaim(y.workers[w], z.workers[w])
    ensures Bounded(z)
  {
  }

  lemma ClaimKeepsBounded(y: System, step: Step)
    requires Bounded(y) && step.StepClaim?
    ensures Bounded(Next(y, step))
  {
    hide Claimable, Of;
    ClaimableKnown(y.store, step.event, step.now);
  }

  lemma DeliverKeepsBounded(y: System, step: Step)
    requires Bounded(y) && step.StepDeliver?
    ensures Bounded(Next(y, step))
  {
    if step.worker in y.workers && MayDeliver(y.workers[step.worker]) {
      DeliverKeepsHeld(y, step);
      DeliverKeepsCounts(y, step);
    }
  }

  lemma DeliverKeepsHeld(y: System, step: Step)
    requires DeliveriesKnown(y) && HeldCounted(y) && step.StepDeliver? && step.worker in y.workers
    requires MayDeliver(y.workers[step.worker])
    ensures DeliveriesKnown(Next(y, step)) && HeldCounted(Next(y, step))
  {
    var z, h := Next(y, step), y.workers[step.worker];
    assert z.delivered == y.delivered + {Delivery(h.event, h.epoch, h.attempts)};
    assert z.workers == y.workers[step.worker := z.workers[step.worker]];
    assert z.workers[step.worker].phase.Answered? && SameClaim(h, z.workers[step.worker]);
    hide Next;
  }

  lemma DeliverKeepsCounts(y: System, step: Step)
    requires HeldCounted(y) && CountsExact(y) && step.StepDeliver? && step.worker in y.workers
    requires MayDeliver(y.workers[step.worker])
    ensures CountsExact(Next(y, step))
  {
    var z, h := Next(y, step), y.workers[step.worker];
    var d := Delivery(h.event, h.epoch, h.attempts);
    assert d !in y.delivered;
    forall e ensures Times(z.deliveries, e) == |Of(z.delivered, e)| {
      assert Times(y.deliveries, e) == |Of(y.delivered, e)|;
      assert Of(y.delivered + {d}, e) == Of(y.delivered, e) + (if e == h.event then {d} else {});
    }
  }

  lemma RequeueKeepsBounded(y: System, step: Step)
    requires Bounded(y) && step.StepRequeue?
    ensures Bounded(Next(y, step))
  {
    hide Of;
  }

  lemma NextKeepsBounded(y: System, step: Step)
    requires Bounded(y)
    ensures Bounded(Next(y, step))
  {
    hide Bounded, BusinessStep, Claimable, Passes, Finish;
    var z := Next(y, step);
    match step
    case StepClaim(w, event, token, now) => ClaimKeepsBounded(y, step);
    case StepDeliver(w, ok) => DeliverKeepsBounded(y, step);
    case StepRequeue(event, now) => RequeueKeepsBounded(y, step);
    case StepFinish(w, now) =>
      if w in y.workers && MayFinish(y.workers[w]) {
        var h := y.workers[w];
        FinishKeepsLeases(y.store, h.event, h.token, Verdict(Succeeded(h), h.attempts),
                          DelayAfter(Succeeded(h), h.attempts), now);
        QuietKeepsBounded(y, z);
      }
    case StepGate(w, found) => QuietKeepsBounded(y, z);
    case StepCrash(w) => QuietKeepsBounded(y, z);
    case _ =>
      BusinessKeepsLeases(y.store, step);
      QuietKeepsBounded(y, z);
  }

  // At most twelve attempts between two requeues.
  lemma {:induction false} AttemptsBound(delivered: set<Delivery>, event: Id, epochs: nat)
    requires forall d :: d in delivered ==> d.event == event && d.epoch < epochs && 1 <= d.attempt <= MAX_ATTEMPTS
    ensures |delivered| <= MAX_ATTEMPTS * epochs
  {
    if epochs == 0 {
      assert delivered == {};
    } else {
      var last := set d | d in delivered && d.epoch == epochs - 1;
      var before := delivered - last;
      AttemptsBound(before, event, epochs - 1);
      OneEpoch(last, event, epochs - 1, MAX_ATTEMPTS);
      assert delivered == before + last;
    }
  }

  lemma {:induction false} OneEpoch(delivered: set<Delivery>, event: Id, epoch: nat, limit: nat)
    requires forall d :: d in delivered ==> d.event == event && d.epoch == epoch && 1 <= d.attempt <= limit
    ensures |delivered| <= limit
  {
    if limit == 0 {
      assert delivered == {};
    } else {
      var top := Delivery(event, epoch, limit);
      OneEpoch(delivered - {top}, event, epoch, limit - 1);
      assert delivered <= (delivered - {top}) + {top};
      if top in delivered {
        assert delivered == (delivered - {top}) + {top};
      } else {
        assert delivered == delivered - {top};
      }
    }
  }

  // ---- Over every run ----

  ghost predicate SystemInv(y: System) {
    StoreInv(y.store) && HeldInOrder(y) && Fenced(y) && Bounded(y)
  }

  lemma EmptyIsSound()
    ensures SystemInv(EMPTY)
  {
    assert forall e :: Of({}, e) == {};
  }

  lemma NextKeepsInv(y: System, step: Step)
    requires SystemInv(y)
    ensures SystemInv(Next(y, step))
  {
    hide StoreInv, HeldInOrder, Fenced, Bounded, Next;
    NextKeepsStore(y, step);
    NextKeepsHeld(y, step);
    NextKeepsFence(y, step);
    NextKeepsBounded(y, step);
  }

  lemma {:induction false} RunKeepsInv(y: System, steps: seq<Step>)
    requires SystemInv(y)
    ensures SystemInv(Run(y, steps)) && Evolves(y.store, Run(y, steps).store)
    decreases steps
  {
    hide SystemInv, Evolves, Next;
    if steps == [] {
      SameEvolves(y.store);
    } else {
      NextKeepsInv(y, steps[0]);
      InvStore(y);
      NextKeepsStore(y, steps[0]);
      RunKeepsInv(Next(y, steps[0]), steps[1..]);
      EvolvesTwice(y.store, Next(y, steps[0]).store, Run(y, steps).store);
    }
  }

  lemma InvStore(y: System)
    requires SystemInv(y)
    ensures StoreInv(y.store)
  {
  }

  // A delivery of a version begins only when every smaller captured version of the request
  // was sent or superseded, whoever else is running, crashed or late.
  lemma DeliveredInOrder(steps: seq<Step>, w: Id, ok: bool, older: Id)
    requires var y := Run(EMPTY, steps); Next(y, StepDeliver(w, ok)) != y
    requires var y := Run(EMPTY, steps);
             && older in y.store.events && w in y.workers && y.workers[w].event in y.store.events
             && Older(y.store, older, y.workers[w].event)
    ensures older in Run(EMPTY, steps).store.outbox && Final(Run(EMPTY, steps).store.outbox[older])
  {
    hide Fenced, Bounded, Run, Next;
    EmptyIsSound();
    RunKeepsInv(EMPTY, steps);
  }

  // A row that blocks its successors has none that is being sent.
  lemma SendingIsOldest(s: Store, a: Id, b: Id)
    requires StoreInv(s) && a in s.events && b in s.events && a in s.outbox && b in s.outbox
    requires Blocking(s.outbox[a]) && s.outbox[b].status == Sending
    ensures !Older(s, a, b)
  {
    assert OlderFinal(s, b);
  }

  // At most one row of a request is being sent.
  lemma OneSendingPerRequest(steps: seq<Step>, a: Id, b: Id)
    requires var s := Run(EMPTY, steps).store;
             && a in s.events && b in s.events && a in s.outbox && b in s.outbox &&
                 s.events[a].request == s.events[b].request
             && s.outbox[a].status == Sending && s.outbox[b].status == Sending
    ensures a == b
  {
    hide Fenced, Bounded, HeldInOrder, Run;
    EmptyIsSound();
    RunKeepsInv(EMPTY, steps);
    var s := Run(EMPTY, steps).store;
    if a != b {
      SendingIsOldest(s, a, b);
      SendingIsOldest(s, b, a);
    }
  }

  // Sent and superseded rows never change again.
  lemma FinishedForGood(y: System, steps: seq<Step>, event: Id)
    requires SystemInv(y) && event in y.store.outbox && Final(y.store.outbox[event])
    ensures event in Run(y, steps).store.outbox && Run(y, steps).store.outbox[event] == y.store.outbox[event]
  {
    hide SystemInv, Run;
    RunKeepsInv(y, steps);
  }

  // An approval that does not pass the gate now never passes it later.
  lemma ReopenedNeverAnnounced(y: System, steps: seq<Step>, event: Id)
    requires SystemInv(y) && event in y.store.events && Approval(y.store.events[event].kind) && !Passes(y.store, event)
    ensures !Passes(Run(y, steps).store, event)
  {
    hide Fenced, Bounded, HeldInOrder, InOrder, VersionsDistinct, LeasesMatch, Run;
    RunKeepsInv(y, steps);
    var s, u := y.store, Run(y, steps).store;
    assert u.events[event] == s.events[event];
    assert s.requests[s.events[event].request].version != s.events[event].version;
  }

  // Reopening an approved request shuts the gate for its approval and takes it out of the
  // outbox, unless it was sent.
  lemma ReopeningShutsTheGate(s: Store, event: Id, status: RequestStatus, byParent: bool, id: Id, now: int)
    requires StoreInv(s) && event in s.events && Passes(s, event) && Approval(s.events[event].kind)
    requires status != RequestApproved
    ensures var u := Committed(s, SetStatus(s, s.events[event].request, status, byParent, id, now));
            !Passes(u, event) && event in u.outbox && Final(u.outbox[event])
  {
    hide InOrder, ApprovalsCurrent, VersionsDistinct;
  }

  // A token that lost its row never changes a row through Finish again.
  lemma {:induction false} SpentForGood(y: System, steps: seq<Step>, token: Id, event: Id, status: RowStatus,
                                        delay: int, now: int)
    requires SystemInv(y) && Spent(y, token)
    ensures Spent(Run(y, steps), token)
    ensures Finish(Run(y, steps).store, event, token, status, delay, now) == Run(y, steps).store
    decreases steps
  {
    hide SystemInv, Next;
    if steps != [] {
      NextKeepsInv(y, steps[0]);
      NextKeepsSpent(y, steps[0], token);
      SpentForGood(Next(y, steps[0]), steps[1..], token, event, status, delay, now);
    }
  }

  lemma NextKeepsSpent(y: System, step: Step, token: Id)
    requires Spent(y, token)
    ensures Spent(Next(y, step), token)
  {
    hide BusinessStep, Claimable, Passes, Finish;
    match step
    case StepClaim(w, event, _, now) => ClaimableKnown(y.store, event, now);
    case StepFinish(w, now) =>
      if w in y.workers && MayFinish(y.workers[w]) {
        var h := y.workers[w];
        FinishKeepsLeases(y.store, h.event, h.token, Verdict(Succeeded(h), h.attempts),
                          DelayAfter(Succeeded(h), h.attempts), now);
      }
    case StepRequeue(event, now) =>
    case StepGate(w, found) =>
    case StepDeliver(w, ok) =>
    case StepCrash(w) =>
    case _ => BusinessKeepsLeases(y.store, step);
  }

  // Claiming an expired lease fences off the worker that held it.
  lemma ReclaimFences(y: System, step: Step, replaced: Id)
    requires SystemInv(y) && step.StepClaim? && Next(y, step) != y
    requires step.event in y.store.outbox && y.store.outbox[step.event].lease == Some(replaced)
    ensures Spent(Next(y, step), replaced)
  {
    hide Claimable, StoreInv, HeldInOrder, Bounded;
  }

  // Each claim is completed at most once, and only by the holder of its lease.
  lemma CompletedAtMostOnce(steps: seq<Step>, token: Id)
    ensures Times(Run(EMPTY, steps).finished, token) <= 1
  {
    hide StoreInv, HeldInOrder, Bounded, Run;
    EmptyIsSound();
    RunKeepsInv(EMPTY, steps);
  }

  // The calls of Deliver for an event whose claims were made after its requeue number epoch
  // and before the next.
  function OfEpoch(delivered: set<Delivery>, event: Id, epoch: nat): set<Delivery> {
    set d | d in delivered && d.event == event && d.epoch == epoch
  }

  // Deliver is called at most twelve times between two requeues, crashes after a claim
  // included. Every call is a member: no call repeats the epoch and attempt of another.
  lemma DeliveriesBounded(steps: seq<Step>, event: Id, epoch: nat)
    ensures var y := Run(EMPTY, steps);
            && |OfEpoch(y.delivered, event, epoch)| <= MAX_ATTEMPTS
            && Times(y.deliveries, event) == |Of(y.delivered, event)|
            && (OfEpoch(y.delivered, event, epoch) != {} ==> epoch <= Times(y.requeues, event))
  {
    hide StoreInv, HeldInOrder, Fenced, Run, Of;
    EmptyIsSound();
    RunKeepsInv(EMPTY, steps);
    OneEpoch(OfEpoch(Run(EMPTY, steps).delivered, event, epoch), event, epoch, MAX_ATTEMPTS);
  }

  // So the total grows by at most twelve with every requeue.
  lemma TotalDeliveriesBounded(steps: seq<Step>, event: Id)
    ensures var y := Run(EMPTY, steps);
            Times(y.deliveries, event) <= MAX_ATTEMPTS * (1 + Times(y.requeues, event))
  {
    hide StoreInv, HeldInOrder, Fenced, Run;
    EmptyIsSound();
    RunKeepsInv(EMPTY, steps);
    var y := Run(EMPTY, steps);
    AttemptsBound(Of(y.delivered, event), event, 1 + Times(y.requeues, event));
    assert Times(y.deliveries, event) == |Of(y.delivered, event)|;
  }

  // ---- Retry delays ----

  // Delays start at 5 seconds, double nine times, never fall and end at 2560 seconds.
  lemma DelaysMonotoneAndBounded(m: Attempt, n: Attempt)
    requires m <= n
    ensures 5 <= RetryDelay(m) <= RetryDelay(n) <= 2560
    ensures RetryDelay(1) == 5 && RetryDelay(m + 1) == if m <= 9 then 2 * RetryDelay(m) else 2560
  {
    DelayDoubles(m, 9);
    DelayGrows(m, n, 9);
    assert Pow2(9) == 512;
  }
}
