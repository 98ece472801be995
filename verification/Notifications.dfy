// Parent notifications: leased, fenced delivery with a bounded number of sends and, for
// email, a bound on how long after the first attempt one may still be sent.
module Notifications {
  import opened Common
  import opened Backoff

  datatype Channel = Email | Chat

  datatype RowStatus = Pending | Sending | Sent | Failed

  datatype Row = Row(channel: Channel, status: RowStatus, attempts: nat, lease: Option<Id>,
                     availableAt: int, createdAt: int, firstAttempt: Option<int>)

  const LEASE_SECONDS := 60
  const MAX_ATTEMPTS := 12
  const MAX_DELAY := 3600
  // The mail provider remembers a message's key for 24 hours; sending stops an hour before.
  const EMAIL_CUTOFF := 23 * 3600

  predicate Claimable(rows: map<Id, Row>, id: Id, now: int) {
    id in rows && (rows[id].status == Pending || rows[id].status == Sending) && rows[id].availableAt <= now
  }

  function Claim(rows: map<Id, Row>, id: Id, token: Id, now: int): map<Id, Row>
    requires id in rows
  {
    var row := rows[id];
    rows[id := row.(status := Sending, attempts := row.attempts + 1, lease := Some(token),
                    availableAt := now + LEASE_SECONDS,
                    firstAttempt := if row.firstAttempt.Some? then row.firstAttempt else Some(now))]
  }

  predicate Leased(rows: map<Id, Row>, id: Id, token: Id) {
    id in rows && rows[id].status == Sending && rows[id].lease == Some(token)
  }

  function Finish(rows: map<Id, Row>, id: Id, token: Id, status: RowStatus, delay: int, now: int): map<Id, Row> {
    if !Leased(rows, id, token) then rows
    else rows[id := rows[id].(status := status, lease := None, availableAt := now + delay)]
  }

  // A reminder that no longer applies is failed instead of claimed.
  function FailStale(rows: map<Id, Row>, id: Id, now: int): map<Id, Row> {
    if !Claimable(rows, id, now) then rows else rows[id := rows[id].(status := Failed, lease := None)]
  }

  // ---- The worker's decisions ----

  function RetryDelay(attempts: Attempt): nat {
    var delay := Delay(attempts, 10);
    if delay > MAX_DELAY then MAX_DELAY else delay
  }

  predicate Exhausted(channel: Channel, attempts: nat, firstAttempt: int, clock: int) {
    attempts > MAX_ATTEMPTS || (channel == Email && clock - firstAttempt >= EMAIL_CUTOFF)
  }

  function Verdict(ok: bool, exhausted: bool, attempts: nat): RowStatus {
    if exhausted then Failed else if ok then Sent else if attempts >= MAX_ATTEMPTS then Failed else Pending
  }

  function DelayAfter(ok: bool, exhausted: bool, attempts: Attempt): nat {
    if exhausted || ok then 0 else RetryDelay(attempts)
  }

  // ---- Interleaved workers ----

  datatype Phase = Claimed | Decided(status: RowStatus, delay: nat)

  // A claim as it was returned to the worker.
  datatype Held = Held(id: Id, token: Id, attempts: Attempt, channel: Channel, firstAttempt: int, phase: Phase)

  // One call of the sender, with the worker's clock.
  datatype Send = Send(id: Id, attempt: nat)

  datatype System = System(rows: map<Id, Row>, workers: map<Id, Held>, used: set<Id>, sends: map<Send, int>,
                           count: map<Id, nat>)

  datatype Step =
    | StepCreate(id: Id, channel: Channel, now: int)
    | StepStale(id: Id, now: int)
    | StepClaim(worker: Id, id: Id, token: Id, now: int)
    | StepDecide(worker: Id, clock: int, ok: bool)
    | StepFinish(worker: Id, now: int)
    | StepCrash(worker: Id)

  function Times(counts: map<Id, nat>, id: Id): nat {
    if id in counts then counts[id] else 0
  }

  function Next(y: System, step: Step): System {
    match step
    case StepCreate(id, channel, now) =>
      if id in y.rows then y else y.(rows := y.rows[id := Row(channel, Pending, 0, None, now, now, None)])
    case StepStale(id, now) => y.(rows := FailStale(y.rows, id, now))
    case StepClaim(w, id, token, now) =>
      if w in y.workers || token in y.used || !Claimable(y.rows, id, now) then y
      else
        var rows := Claim(y.rows, id, token, now);
        y.(rows := rows, used := y.used + {token},
           workers := y.workers[w := Held(id, token, rows[id].attempts, rows[id].channel, rows[id].firstAttempt.value,
                                          Claimed)])
    case StepDecide(w, clock, ok) =>
      if w !in y.workers || !y.workers[w].phase.Claimed? then y
      else
        var h := y.workers[w];
        var exhausted := Exhausted(h.channel, h.attempts, h.firstAttempt, clock);
        var z := y.(workers := y.workers[w := h.(phase := Decided(Verdict(ok, exhausted, h.attempts),
                                                                  DelayAfter(ok, exhausted, h.attempts)))]);
        if exhausted then z
        else z.(sends := y.sends[Send(h.id, h.attempts) := clock], count := y.count[h.id := Times(y.count, h.id) + 1])
    case StepFinish(w, now) =>
      if w !in y.workers || !y.workers[w].phase.Decided? then y
      else
        var h := y.workers[w];
        y.(rows := Finish(y.rows, h.id, h.token, h.phase.status, h.phase.delay, now), workers := y.workers - {w})
    case StepCrash(w) => y.(workers := y.workers - {w})
  }

  function Run(y: System, steps: seq<Step>): System
    decreases steps
  {
    if steps == [] then y else Run(Next(y, steps[0]), steps[1..])
  }

  const EMPTY := System(map[], map[], {}, map[], map[])

  // ---- What every run keeps ----

  function Of(sends: set<Send>, id: Id): set<Send> {
    set s | s in sends && s.id == id
  }

  // The attempt was counted on the row, which remembers when the first one was made.
  ghost predicate Known(rows: map<Id, Row>, id: Id, attempt: nat, channel: Channel, firstAttempt: int) {
    id in rows && 1 <= attempt <= rows[id].attempts && rows[id].channel == channel &&
        rows[id].firstAttempt == Some(firstAttempt)
  }

  ghost predicate HeldKnown(y: System) {
    && (forall w :: w in y.workers ==>
          var h := y.workers[w];
          Known(y.rows, h.id, h.attempts, h.channel, h.firstAttempt) && (h.phase.Claimed? ==>
              Send(h.id, h.attempts) !in y.sends))
    && (forall v, w :: v in y.workers && w in y.workers && v != w ==>
          y.workers[v].id != y.workers[w].id || y.workers[v].attempts != y.workers[w].attempts)
  }

  ghost predicate InTime(rows: map<Id, Row>, s: Send, clock: int) {
    && s.id in rows && 1 <= s.attempt <= MAX_ATTEMPTS && s.attempt <= rows[s.id].attempts &&
        rows[s.id].firstAttempt.Some?
    && (rows[s.id].channel == Email ==> clock - rows[s.id].firstAttempt.value < EMAIL_CUTOFF)
  }

  ghost predicate SendsInTime(y: System) {
    forall s :: s in y.sends ==> InTime(y.rows, s, y.sends[s])
  }

  ghost predicate CountsExact(y: System) {
    Exact(y.sends.Keys, y.count)
  }

  ghost predicate Fenced(y: System) {
    && (forall id :: id in y.rows && y.rows[id].lease.Some? ==> y.rows[id].lease.value in y.used)
    && (forall a, b :: a in y.rows && b in y.rows && a != b && y.rows[a].lease.Some? ==>
        y.rows[a].lease != y.rows[b].lease)
    && (forall id :: id in y.rows && y.rows[id].attempts >= 1 ==> y.rows[id].firstAttempt.Some?)
  }

  ghost predicate Inv(y: System) {
    HeldKnown(y) && SendsInTime(y) && CountsExact(y) && Fenced(y)
  }

  // What no step changes: the channel, the first attempt once made, and attempts only grow.
  ghost predicate Grows(rows: map<Id, Row>, later: map<Id, Row>) {
    forall id :: id in rows ==>
      && id in later && later[id].channel == rows[id].channel && later[id].attempts >= rows[id].attempts
      && (rows[id].firstAttempt.Some? ==> later[id].firstAttempt == rows[id].firstAttempt)
  }

  lemma RowsGrow(y: System, step: Step)
    ensures Grows(y.rows, Next(y, step).rows)
  {
  }

  lemma GrowsKeeps(y: System, z: System)
    requires Grows(y.rows, z.rows) && z.sends == y.sends && z.count == y.count && HeldKnown(y) && SendsInTime(y)
    requires CountsExact(y)
    requires forall w :: w in z.workers ==> w in y.workers && z.workers[w] == y.workers[w]
    ensures HeldKnown(z) && SendsInTime(z) && CountsExact(z)
  {
    hide Of;
  }

  lemma ClaimKeeps(y: System, step: Step)
    requires Inv(y) && step.StepClaim?
    ensures Inv(Next(y, step))
  {
    hide Of;
  }

  lemma DecideKeepsHeld(y: System, step: Step)
    requires HeldKnown(y) && SendsInTime(y) && step.StepDecide?
    ensures HeldKnown(Next(y, step)) && SendsInTime(Next(y, step))
  {
    hide RetryDelay;
  }

  ghost predicate Exact(sends: set<Send>, count: map<Id, nat>) {
    forall id :: Times(count, id) == |Of(sends, id)|
  }

  lemma OneMoreOf(sends: set<Send>, s: Send, id: Id)
    requires s !in sends
    ensures |Of(sends + {s}, id)| == |Of(sends, id)| + (if id == s.id then 1 else 0)
  {
    var before := Of(sends, id);
    if id == s.id {
      assert Of(sends + {s}, id) == before + {s};
      assert s !in before;
    } else {
      assert Of(sends + {s}, id) == before;
    }
  }

  lemma OneMoreSend(sends: set<Send>, count: map<Id, nat>, s: Send)
    requires Exact(sends, count) && s !in sends
    ensures Exact(sends + {s}, count[s.id := Times(count, s.id) + 1])
  {
    hide Of;
    forall id ensures Times(count[s.id := Times(count, s.id) + 1], id) == |Of(sends + {s}, id)| {
      OneMoreOf(sends, s, id);
      assert Times(count, id) == |Of(sends, id)|;
    }
  }

  lemma DecideKeepsCounts(y: System, step: Step)
    requires HeldKnown(y) && CountsExact(y) && step.StepDecide?
    ensures CountsExact(Next(y, step))
  {
    hide RetryDelay, Of, Exact, Times;
    if step.worker in y.workers && y.workers[step.worker].phase.Claimed? {
      var h := y.workers[step.worker];
      if !Exhausted(h.channel, h.attempts, h.firstAttempt, step.clock) {
        OneMoreSend(y.sends.Keys, y.count, Send(h.id, h.attempts));
        assert Next(y, step).sends.Keys == y.sends.Keys + {Send(h.id, h.attempts)};
      }
    }
  }

  lemma NextKeepsFence(y: System, step: Step)
    requires Fenced(y)
    ensures Fenced(Next(y, step))
  {
    hide RetryDelay;
  }

  lemma NextKeeps(y: System, step: Step)
    requires Inv(y)
    ensures Inv(Next(y, step))
  {
    hide HeldKnown, SendsInTime, CountsExact, Fenced, Grows, RetryDelay;
    RowsGrow(y, step);
    NextKeepsFence(y, step);
    match step
    case StepClaim(w, id, token, now) => ClaimKeeps(y, step);
    case StepDecide(w, clock, ok) =>
      DecideKeepsHeld(y, step);
      DecideKeepsCounts(y, step);
    case _ => QuietKeeps(y, step);
  }

  lemma QuietKeeps(y: System, step: Step)
    requires HeldKnown(y) && SendsInTime(y) && CountsExact(y) && !step.StepClaim? && !step.StepDecide?
    ensures var z := Next(y, step); HeldKnown(z) && SendsInTime(z) && CountsExact(z)
  {
    hide HeldKnown, SendsInTime, CountsExact, Grows;
    RowsGrow(y, step);
    GrowsKeeps(y, Next(y, step));
  }

  lemma {:induction false} RunKeeps(y: System, steps: seq<Step>)
    requires Inv(y)
    ensures Inv(Run(y, steps))
    decreases steps
  {
    hide Inv, Next;
    if steps != [] {
      NextKeeps(y, steps[0]);
      RunKeeps(Next(y, steps[0]), steps[1..]);
    }
  }

  lemma EmptyIsSound()
    ensures Inv(EMPTY)
  {
    assert EMPTY.sends.Keys == {};
    assert forall id :: Of({}, id) == {};
  }

  lemma {:induction false} SendsOfOne(sends: set<Send>, id: Id, limit: nat)
    requires forall s :: s in sends ==> s.id == id && 1 <= s.attempt <= limit
    ensures |sends| <= limit
  {
    if limit == 0 {
      assert sends == {};
    } else {
      var top := Send(id, limit);
      SendsOfOne(sends - {top}, id, limit - 1);
      if top in sends {
        assert sends == (sends - {top}) + {top};
      } else {
        assert sends == sends - {top};
      }
    }
  }

  // The sender is called at most twelve times for a notification, crashes included.
  lemma SendsBounded(steps: seq<Step>, id: Id)
    ensures Times(Run(EMPTY, steps).count, id) <= MAX_ATTEMPTS
  {
    hide Run, HeldKnown, Fenced;
    EmptyIsSound();
    RunKeeps(EMPTY, steps);
    var y := Run(EMPTY, steps);
    SendsOfOne(Of(y.sends.Keys, id), id, MAX_ATTEMPTS);
    assert Times(y.count, id) == |Of(y.sends.Keys, id)|;
  }

  // No email is sent 23 hours or more after its first attempt, by the sending worker's clock.
  lemma EmailsStopInTime(steps: seq<Step>, s: Send)
    requires s in Run(EMPTY, steps).sends
    ensures var y := Run(EMPTY, steps);
            && s.id in y.rows && y.rows[s.id].firstAttempt.Some?
            && (y.rows[s.id].channel == Email ==> y.sends[s] - y.rows[s.id].firstAttempt.value < EMAIL_CUTOFF)
  {
    hide Run, HeldKnown, Fenced, CountsExact;
    EmptyIsSound();
    RunKeeps(EMPTY, steps);
    assert InTime(Run(EMPTY, steps).rows, s, Run(EMPTY, steps).sends[s]);
  }

  // A worker whose lease was taken over or finished changes nothing.
  ghost predicate Spent(y: System, token: Id) {
    token in y.used && forall id :: id in y.rows ==> y.rows[id].lease != Some(token)
  }

  lemma {:induction false} SpentForGood(y: System, steps: seq<Step>, token: Id, id: Id, status: RowStatus, delay: int,
                                        now: int)
    requires Spent(y, token)
    ensures Spent(Run(y, steps), token)
    ensures Finish(Run(y, steps).rows, id, token, status, delay, now) == Run(y, steps).rows
    decreases steps
  {
    if steps != [] {
      SpentStep(y, steps[0], token);
      SpentForGood(Next(y, steps[0]), steps[1..], token, id, status, delay, now);
    }
  }

  lemma SpentStep(y: System, step: Step, token: Id)
    requires Spent(y, token)
    ensures Spent(Next(y, step), token)
  {
    hide RetryDelay;
  }

  // Finishing spends the worker's token; a new claim of the row spends the token it replaces.
  lemma FinishSpends(y: System, w: Id, now: int)
    requires Inv(y) && w in y.workers && y.workers[w].phase.Decided?
    requires Leased(y.rows, y.workers[w].id, y.workers[w].token)
    ensures Spent(Next(y, StepFinish(w, now)), y.workers[w].token)
  {
    hide HeldKnown, SendsInTime, CountsExact;
  }

  lemma ReclaimSpends(y: System, step: Step, token: Id)
    requires Inv(y) && step.StepClaim? && Next(y, step) != y && Leased(y.rows, step.id, token)
    ensures Spent(Next(y, step), token)
  {
    hide HeldKnown, SendsInTime, CountsExact;
  }

  // ---- What the rows mean ----

  // A row waits again only with attempts left, and is sent only after the sender was called.
  ghost predicate RowTells(row: Row, id: Id, sends: map<Send, int>) {
    && (row.status == Pending ==> row.attempts < MAX_ATTEMPTS)
    && (row.status == Sent ==> exists s :: s in sends && s.id == id)
  }

  ghost predicate RowsTell(y: System) {
    && (forall w :: w in y.workers ==>
          var h := y.workers[w];
          && h.token in y.used
          && (Leased(y.rows, h.id, h.token) ==> y.rows[h.id].attempts == h.attempts)
          && (h.phase.Decided? && h.phase.status == Sent ==> Send(h.id, h.attempts) in y.sends)
          && (h.phase.Decided? && h.phase.status == Pending ==> h.attempts < MAX_ATTEMPTS))
    && forall id :: id in y.rows ==> RowTells(y.rows[id], id, y.sends)
  }

  lemma NextRowsTell(y: System, step: Step)
    requires RowsTell(y)
    ensures RowsTell(Next(y, step))
  {
    hide RetryDelay;
  }

  lemma {:induction false} RunRowsTell(y: System, steps: seq<Step>)
    requires RowsTell(y)
    ensures RowsTell(Run(y, steps))
    decreases steps
  {
    hide RowsTell, Next;
    if steps != [] {
      NextRowsTell(y, steps[0]);
      RunRowsTell(Next(y, steps[0]), steps[1..]);
    }
  }

  lemma SentWasSent(steps: seq<Step>, id: Id)
    requires id in Run(EMPTY, steps).rows
    ensures var y := Run(EMPTY, steps);
            && (y.rows[id].status == Sent ==> exists s :: s in y.sends && s.id == id)
            && (y.rows[id].status == Pending ==> y.rows[id].attempts < MAX_ATTEMPTS)
  {
    hide Run;
    RunRowsTell(EMPTY, steps);
    assert RowTells(Run(EMPTY, steps).rows[id], id, Run(EMPTY, steps).sends);
  }

  // ---- Retry delays ----

  // Delays start at five seconds, double, never fall and stop at an hour.
  lemma DelaysMonotoneAndBounded(m: Attempt, n: Attempt)
    requires m <= n
    ensures 5 <= RetryDelay(m) <= RetryDelay(n) <= MAX_DELAY
    ensures RetryDelay(1) == 5
    ensures RetryDelay(m + 1) == if 2 * RetryDelay(m) > MAX_DELAY then MAX_DELAY else 2 * RetryDelay(m)
  {
    DelayDoubles(m, 10);
    if m > 10 {
      DelayGrows(11, m, 10);
      assert Pow2(10) == 1024;
    }
    DelayGrows(m, n, 10);
  }
}
