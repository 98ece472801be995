// What becomes of every attempt to notify a parent, told from the stored rows alone.
module NotificationOutcomes {
  import opened Common
  import opened Backoff
  import opened Notifications

  function Seconds(attempts: nat): int {
    if attempts <= 1 then 5 else if attempts > 10 then 3600 else 2 * Seconds(attempts - 1)
  }

  lemma SecondsDouble(n: nat)
    requires n <= 9
    ensures Seconds(n + 1) == 5 * Pow2(n)
  {
  }

  lemma SecondsAre(attempts: Attempt)
    ensures Seconds(attempts) == RetryDelay(attempts)
  {
    assert Pow2(10) == 1024 && Pow2(9) == 512;
    if attempts <= 10 {
      SecondsDouble(attempts - 1);
      Pow2Grows(attempts - 1, 9);
    }
  }

  // More than twelve attempts, or an email 23 hours or more after the first one.
  predicate TimeIsUp(channel: Channel, attempts: nat, firstAttempt: int, clock: int) {
    attempts > 12 || (channel == Email && clock - firstAttempt >= 82800)
  }

  // The row after an attempt: given up when its time was up or after the twelfth, sent when the
  // sender took it, or due again after five seconds doubled for every attempt before, an hour
  // at most.
  predicate Settled(row: Row, after: Row, attempts: nat, timeIsUp: bool, accepted: bool, now: int) {
    && after.channel == row.channel && after.attempts == row.attempts && after.createdAt == row.createdAt
    && after.firstAttempt == row.firstAttempt && after.lease == None
    && (if timeIsUp then after.status == Failed && after.availableAt == now
        else if accepted then after.status == Sent && after.availableAt == now
        else
          && after.status == (if attempts < 12 then Pending else Failed)
          && after.availableAt == now + Seconds(attempts))
  }

  // A worker that claimed a notification sends it unless its time is up, and settles the row if
  // it still holds the lease, and no other row.
  lemma AttemptSettled(y: System, w: Id, clock: int, accepted: bool, now: int)
    requires w in y.workers && y.workers[w].phase == Claimed
    ensures
      var h := y.workers[w];
      var decided := Next(y, StepDecide(w, clock, accepted));
      var z := Next(decided, StepFinish(w, now));
      var up := TimeIsUp(h.channel, h.attempts, h.firstAttempt, clock);
      var holds := h.id in y.rows && y.rows[h.id].status == Sending && y.rows[h.id].lease == Some(h.token);
      && Times(decided.count, h.id) == Times(y.count, h.id) + (if up then 0 else 1)
      && z.workers == y.workers - {w} && z.rows.Keys == y.rows.Keys
      && (forall id :: id in y.rows && (id != h.id || !holds) ==> z.rows[id] == y.rows[id])
      && (holds ==> Settled(y.rows[h.id], z.rows[h.id], h.attempts, up, accepted, now))
  {
    hide Next, Settled;
    Decides(y, w, clock, accepted);
    Finishes(Next(y, StepDecide(w, clock, accepted)), y.workers[w], w, clock, accepted, now);
  }

  // What the worker decides, before it writes.
  predicate DecidedAs(phase: Phase, attempts: nat, timeIsUp: bool, accepted: bool) {
    phase.Decided?
    && (if timeIsUp then phase.status == Failed && phase.delay == 0
        else if accepted then phase.status == Sent && phase.delay == 0
        else phase.status == (if attempts < 12 then Pending else Failed) && phase.delay == Seconds(attempts))
  }

  lemma Decides(y: System, w: Id, clock: int, accepted: bool)
    requires w in y.workers && y.workers[w].phase == Claimed
    ensures
      var h, z := y.workers[w], Next(y, StepDecide(w, clock, accepted));
      var up := TimeIsUp(h.channel, h.attempts, h.firstAttempt, clock);
      && z.rows == y.rows && Times(z.count, h.id) == Times(y.count, h.id) + (if up then 0 else 1)
      && z.workers.Keys == y.workers.Keys && z.workers - {w} == y.workers - {w}
      && z.workers[w] == h.(phase := z.workers[w].phase) && DecidedAs(z.workers[w].phase, h.attempts, up, accepted)
  {
    SecondsAre(y.workers[w].attempts);
    hide Seconds, RetryDelay;
  }

  lemma Finishes(y: System, h: Held, w: Id, clock: int, accepted: bool, now: int)
    requires w in y.workers && y.workers[w] == h.(phase := y.workers[w].phase)
    requires DecidedAs(y.workers[w].phase, h.attempts, TimeIsUp(h.channel, h.attempts, h.firstAttempt, clock), accepted)
    ensures
      var z := Next(y, StepFinish(w, now));
      var up := TimeIsUp(h.channel, h.attempts, h.firstAttempt, clock);
      var holds := h.id in y.rows && y.rows[h.id].status == Sending && y.rows[h.id].lease == Some(h.token);
      && z.workers == y.workers - {w} && z.rows.Keys == y.rows.Keys
      && (forall id :: id in y.rows && (id != h.id || !holds) ==> z.rows[id] == y.rows[id])
      && (holds ==> Settled(y.rows[h.id], z.rows[h.id], h.attempts, up, accepted, now))
  {
    hide Seconds, TimeIsUp;
  }

  // A row is taken exactly when it is pending or its lease ran out, and its time has come; it
  // remembers when it was first taken.
  lemma ClaimedExactly(y: System, w: Id, id: Id, token: Id, now: int)
    requires w !in y.workers && token !in y.used
    ensures
      var z := Next(y, StepClaim(w, id, token, now));
      var due := id in y.rows && y.rows[id].status in {Pending, Sending} && y.rows[id].availableAt <= now;
      && (!due ==> z == y)
      && (due ==>
            var row := y.rows[id];
            var first := if row.firstAttempt.Some? then row.firstAttempt.value else now;
            && z.rows == y.rows[id := Row(row.channel, Sending, row.attempts + 1, Some(token), now + 60, row.createdAt,
                                          Some(first))]
            && z.workers == y.workers[w := Held(id, token, row.attempts + 1, row.channel, first, Claimed)])
  {
  }

  // A notification is created once, due at once; a due reminder that no longer applies is given
  // up.
  lemma CreatedAndStaleExactly(y: System, id: Id, channel: Channel, now: int)
    ensures
      var created, stale := Next(y, StepCreate(id, channel, now)), Next(y, StepStale(id, now));
      && created.rows == (if id in y.rows then y.rows else y.rows[id := Row(channel, Pending, 0, None, now, now, None)])
      && stale.rows == (if id in y.rows && y.rows[id].status in {Pending, Sending} && y.rows[id].availableAt <= now
                        then y.rows[id := y.rows[id].(status := Failed, lease := None)] else y.rows)
  {
  }
}
