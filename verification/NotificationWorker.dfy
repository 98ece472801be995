// The notification worker as a loop over the outbox table it updates.
module NotificationWorker {
  import opened Common
  import N = Notifications
  import O = NotificationOutcomes

  // The outside's part in one turn: the reminders that no longer apply, the database clock, a new token, the worker's
  // clock, the sender's answer, and the database clock at the finish.
  datatype Turn = Turn(stale: set<Id>, now: int, token: Id, clock: int, accepted: bool, finishedAt: int)

  // ORDER BY available_at, created_at, id.
  predicate Before(rows: map<Id, N.Row>, a: Id, b: Id)
    requires a in rows && b in rows
  {
    || rows[a].availableAt < rows[b].availableAt
    || (rows[a].availableAt == rows[b].availableAt && rows[a].createdAt < rows[b].createdAt)
    || (rows[a].availableAt == rows[b].availableAt && rows[a].createdAt == rows[b].createdAt && a <= b)
  }

  ghost predicate First(rows: map<Id, N.Row>, now: int, id: Id) {
    N.Claimable(rows, id, now) && forall other :: N.Claimable(rows, other, now) ==> Before(rows, id, other)
  }

  // Due reminders that no longer apply are failed first, in the same statement.
  function WithoutStale(rows: map<Id, N.Row>, stale: set<Id>, now: int): map<Id, N.Row> {
    map id | id in rows ::
      if id in stale && N.Claimable(rows, id, now) then rows[id].(status := N.Failed, lease := None) else rows[id]
  }

  ghost function PickNext(rows: map<Id, N.Row>, now: int): Option<Id> {
    if exists id :: First(rows, now, id) then
      var id :| First(rows, now, id);
      Some(id)
    else None
  }

  function TakeTurn(rows: map<Id, N.Row>, turn: Turn, id: Id): map<Id, N.Row>
    requires id in rows
  {
    var claimed := N.Claim(rows, id, turn.token, turn.now);
    var attempts := claimed[id].attempts;
    var exhausted := N.Exhausted(claimed[id].channel, attempts, claimed[id].firstAttempt.value, turn.clock);
    N.Finish(claimed, id, turn.token, N.Verdict(turn.accepted, exhausted, attempts),
             N.DelayAfter(turn.accepted, exhausted, attempts), turn.finishedAt)
  }

  // One turn sends unless the attempts or an email's time ran out, and settles the row it took
  // and no other.
  lemma TurnSettles(rows: map<Id, N.Row>, turn: Turn, id: Id)
    requires id in rows
    ensures
      var after, row := TakeTurn(rows, turn, id), rows[id];
      var first := if row.firstAttempt.Some? then row.firstAttempt.value else turn.now;
      var attempts := row.attempts + 1;
      && after.Keys == rows.Keys && (forall other :: other in rows && other != id ==> after[other] == rows[other])
      && O.Settled(row.(attempts := attempts, firstAttempt := Some(first)), after[id], attempts,
                   O.TimeIsUp(row.channel, attempts, first, turn.clock), turn.accepted, turn.finishedAt)
  {
    O.SecondsAre(rows[id].attempts + 1);
    hide O.Seconds;
  }

  ghost function Pass(rows: map<Id, N.Row>, turns: seq<Turn>): map<Id, N.Row>
    decreases turns
  {
    if turns == [] then rows
    else
      var left := WithoutStale(rows, turns[0].stale, turns[0].now);
      match PickNext(left, turns[0].now)
      case None => left
      case Some(id) => Pass(TakeTurn(left, turns[0], id), turns[1..])
  }

  // A turn takes the first row that may be claimed after the stale ones are failed.
  ghost predicate TakesOne(before: map<Id, N.Row>, turn: Turn, id: Id, after: map<Id, N.Row>) {
    var left := WithoutStale(before, turn.stale, turn.now);
    First(left, turn.now, id) && id in left && after == TakeTurn(left, turn, id)
  }

  ghost predicate Takes(rows: map<Id, N.Row>, turns: seq<Turn>, ids: seq<Id>, states: seq<map<Id, N.Row>>) {
    && |ids| <= |turns| && |states| == |ids| + 1 && states[0] == rows
    && forall k :: 0 <= k < |ids| ==> TakesOne(states[k], turns[k], ids[k], states[k + 1])
  }

  // A pass takes rows as long as it has turns and one may be claimed.
  lemma {:induction false} PassTakesAll(rows: map<Id, N.Row>, turns: seq<Turn>)
    returns (ids: seq<Id>, states: seq<map<Id, N.Row>>)
    ensures Takes(rows, turns, ids, states)
    ensures |ids| == |turns| ==> states[|ids|] == Pass(rows, turns)
    ensures |ids| < |turns| ==>
              var left := WithoutStale(states[|ids|], turns[|ids|].stale, turns[|ids|].now);
              Pass(rows, turns) == left && forall id :: !N.Claimable(left, id, turns[|ids|].now)
    decreases turns
  {
    hide TakeTurn, N.Claimable, WithoutStale, Takes;
    ids, states := [], [rows];
    assert Takes(rows, turns, [], [rows]) by { TakesNone(rows, turns); }
    if turns != [] {
      var left := WithoutStale(rows, turns[0].stale, turns[0].now);
      NothingOrFirst(left, turns[0].now);
      if PickNext(left, turns[0].now).Some? {
        var id := PickNext(left, turns[0].now).value;
        var restIds, restStates := PassTakesAll(TakeTurn(left, turns[0], id), turns[1..]);
        ids, states := [id] + restIds, [rows] + restStates;
        TakesSizes(TakeTurn(left, turns[0], id), turns[1..], restIds, restStates);
        TakesFirst(rows, turns, id, restIds, restStates);
        assert states[|ids|] == restStates[|restIds|];
        assert |ids| < |turns| ==> turns[|ids|] == turns[1..][|restIds|];
      }
    }
  }

  lemma TakesSizes(rows: map<Id, N.Row>, turns: seq<Turn>, ids: seq<Id>, states: seq<map<Id, N.Row>>)
    requires Takes(rows, turns, ids, states)
    ensures |ids| <= |turns| && |states| == |ids| + 1 && states[0] == rows
  {
  }

  lemma TakesNone(rows: map<Id, N.Row>, turns: seq<Turn>)
    ensures Takes(rows, turns, [], [rows])
  {
  }

  lemma TakesFirst(rows: map<Id, N.Row>, turns: seq<Turn>, id: Id, ids: seq<Id>, states: seq<map<Id, N.Row>>)
    requires turns != [] && states != [] && TakesOne(rows, turns[0], id, states[0])
    requires Takes(states[0], turns[1..], ids, states)
    ensures Takes(rows, turns, [id] + ids, [rows] + states)
  {
    hide TakesOne;
    forall k | 0 <= k < |ids| + 1
      ensures TakesOne(([rows] + states)[k], turns[k], ([id] + ids)[k], ([rows] + states)[k + 1])
    {
      if k > 0 { assert TakesOne(states[k - 1], turns[1..][k - 1], ids[k - 1], states[k]); }
    }
  }

  // Of the rows that may be claimed, the one that was due first is taken, then the one created
  // first; the id settles ties.
  lemma NothingOrFirst(rows: map<Id, N.Row>, now: int)
    ensures PickNext(rows, now).Some? ==>
              var id := PickNext(rows, now).value;
              && N.Claimable(rows, id, now) && id in rows
              && forall other :: N.Claimable(rows, other, now) && other in rows ==>
                   rows[id].availableAt < rows[other].availableAt
                   || (rows[id].availableAt == rows[other].availableAt && rows[id].createdAt < rows[other].createdAt)
                   || (rows[id].availableAt == rows[other].availableAt && rows[id].createdAt == rows[other].createdAt
                       && id <= other)
    ensures PickNext(rows, now).None? ==> forall id :: !N.Claimable(rows, id, now)
  {
    if PickNext(rows, now).None? {
      forall id ensures !N.Claimable(rows, id, now) {
        if N.Claimable(rows, id, now) { FirstExists(rows, now, id); }
      }
    }
    hide N.Claimable;
  }

  lemma FirstExists(rows: map<Id, N.Row>, now: int, id: Id)
    requires N.Claimable(rows, id, now)
    ensures exists first :: First(rows, now, first)
  {
    var waiting := set i | i in rows && N.Claimable(rows, i, now);
    assert id in waiting && waiting <= rows.Keys;
    var first := Earliest(rows, waiting);
    assert forall other :: N.Claimable(rows, other, now) ==> other in waiting;
    assert First(rows, now, first);
  }

  lemma {:induction false} Earliest(rows: map<Id, N.Row>, ids: set<Id>) returns (first: Id)
    requires ids != {} && ids <= rows.Keys
    ensures first in ids && forall other :: other in ids ==> Before(rows, first, other)
    decreases ids
  {
    var x :| x in ids;
    first := x;
    var rest := ids - {x};
    assert ids == rest + {x};
    if rest != {} {
      var o := Earliest(rows, rest);
      if Before(rows, o, x) { first := o; }
      forall other | other in ids ensures Before(rows, first, other) {
        if other != x { assert other in rest && Before(rows, o, other); }
      }
    }
  }

  // ---- A turn is three steps of the interleaved system, a pass is a run ----

  function TurnSteps(w: Id, turn: Turn, id: Id): seq<N.Step> {
    [N.StepClaim(w, id, turn.token, turn.now), N.StepDecide(w, turn.clock, turn.accepted),
     N.StepFinish(w, turn.finishedAt)]
  }

  // One step for each stale reminder, in any order.
  ghost function StaleSteps(rows: map<Id, N.Row>, stale: set<Id>, now: int): seq<N.Step>
    decreases |stale|
  {
    if stale == {} then []
    else
      var id :| id in stale;
      [N.StepStale(id, now)] + StaleSteps(rows, stale - {id}, now)
  }

  ghost function PassSteps(rows: map<Id, N.Row>, w: Id, turns: seq<Turn>): seq<N.Step>
    decreases turns
  {
    if turns == [] then []
    else
      var failing := StaleSteps(rows, turns[0].stale * rows.Keys, turns[0].now);
      var left := WithoutStale(rows, turns[0].stale, turns[0].now);
      match PickNext(left, turns[0].now)
      case None => failing
      case Some(id) => failing + (TurnSteps(w, turns[0], id) + PassSteps(TakeTurn(left, turns[0], id), w, turns[1..]))
  }

  lemma {:induction false} RunAppend(y: N.System, a: seq<N.Step>, b: seq<N.Step>)
    ensures N.Run(y, a + b) == N.Run(N.Run(y, a), b)
    decreases a
  {
    if a == [] {
      assert a + b == b;
    } else {
      assert (a + b)[0] == a[0] && (a + b)[1..] == a[1..] + b;
      RunAppend(N.Next(y, a[0]), a[1..], b);
    }
  }

  lemma ThreeSteps(y: N.System, a: N.Step, b: N.Step, c: N.Step)
    ensures N.Run(y, [a, b, c]) == N.Next(N.Next(N.Next(y, a), b), c)
  {
    hide N.Next;
    var y1 := N.Next(y, a);
    var y2 := N.Next(y1, b);
    assert N.Run(y, [a, b, c]) == N.Run(y1, [b, c]) by { assert [a, b, c][1..] == [b, c]; }
    assert N.Run(y1, [b, c]) == N.Run(y2, [c]) by { assert [b, c][1..] == [c]; }
    assert N.Run(y2, [c]) == N.Run(N.Next(y2, c), []);
  }

  lemma TurnIsThreeSteps(y: N.System, w: Id, turn: Turn, id: Id)
    requires w !in y.workers && turn.token !in y.used && N.Claimable(y.rows, id, turn.now)
    ensures var z := N.Run(y, TurnSteps(w, turn, id));
            z.rows == TakeTurn(y.rows, turn, id) && z.workers == y.workers && z.used == y.used + {turn.token}
  {
    hide N.Finish, N.RetryDelay, N.Exhausted;
    ThreeSteps(y, N.StepClaim(w, id, turn.token, turn.now), N.StepDecide(w, turn.clock, turn.accepted),
               N.StepFinish(w, turn.finishedAt));
    var y1 := N.Next(y, N.StepClaim(w, id, turn.token, turn.now));
    var y2 := N.Next(y1, N.StepDecide(w, turn.clock, turn.accepted));
    assert y.workers == y2.workers - {w};
  }

  lemma WithoutOneStale(rows: map<Id, N.Row>, stale: set<Id>, id: Id, now: int)
    requires id in stale && id in rows
    ensures WithoutStale(N.FailStale(rows, id, now), stale - {id}, now) == WithoutStale(rows, stale, now)
  {
    var one, rest := N.FailStale(rows, id, now), stale - {id};
    assert one.Keys == rows.Keys;
    forall i | i in rows ensures WithoutStale(one, rest, now)[i] == WithoutStale(rows, stale, now)[i] {
    }
  }

  lemma {:induction false} StaleIsARun(y: N.System, stale: set<Id>, now: int)
    requires stale <= y.rows.Keys
    ensures N.Run(y, StaleSteps(y.rows, stale, now)) == y.(rows := WithoutStale(y.rows, stale, now))
    ensures forall rows :: StaleSteps(rows, stale, now) == StaleSteps(y.rows, stale, now)
    decreases |stale|
  {
    if stale == {} {
      assert WithoutStale(y.rows, stale, now) == y.rows;
    } else {
      var id :| id in stale &&
          StaleSteps(y.rows, stale, now) == [N.StepStale(id, now)] + StaleSteps(y.rows, stale - {id}, now);
      var next := N.Next(y, N.StepStale(id, now));
      assert next == y.(rows := N.FailStale(y.rows, id, now));
      StaleIsARun(next, stale - {id}, now);
      WithoutOneStale(y.rows, stale, id, now);
      RunAppend(y, [N.StepStale(id, now)], StaleSteps(y.rows, stale - {id}, now));
      assert N.Run(y, [N.StepStale(id, now)]) == N.Run(next, []);
    }
  }

  // So the bounds proved over all runs hold of every pass.
  lemma {:induction false} PassIsARun(y: N.System, w: Id, turns: seq<Turn>)
    requires w !in y.workers
    requires forall i :: 0 <= i < |turns| ==> turns[i].token !in y.used
    requires forall i, j :: 0 <= i < j < |turns| ==> turns[i].token != turns[j].token
    ensures N.Run(y, PassSteps(y.rows, w, turns)).rows == Pass(y.rows, turns)
    decreases turns
  {
    hide TakeTurn, TurnSteps, StaleSteps, WithoutStale;
    if turns != [] {
      var turn := turns[0];
      var failing := StaleSteps(y.rows, turn.stale * y.rows.Keys, turn.now);
      StaleIsARun(y, turn.stale * y.rows.Keys, turn.now);
      OnlyKnownStale(y.rows, turn.stale, turn.now);
      var left := y.(rows := WithoutStale(y.rows, turn.stale, turn.now));
      if PickNext(left.rows, turn.now).Some? {
        var id := PickNext(left.rows, turn.now).value;
        TurnIsThreeSteps(left, w, turn, id);
        var z := N.Run(left, TurnSteps(w, turn, id));
        var rest := PassSteps(z.rows, w, turns[1..]);
        RunAppend(left, TurnSteps(w, turn, id), rest);
        RunAppend(y, failing, TurnSteps(w, turn, id) + rest);
        PassIsARun(z, w, turns[1..]);
      }
    }
  }

  lemma OnlyKnownStale(rows: map<Id, N.Row>, stale: set<Id>, now: int)
    ensures WithoutStale(rows, stale * rows.Keys, now) == WithoutStale(rows, stale, now)
  {
  }

  class ParentNotificationStore {
    var rows: map<Id, N.Row>

    // One statement: fails the due reminders that no longer apply, then takes one row.
    method Claim(stale: set<Id>, token: Id, now: int) returns (id: Option<Id>)
      modifies this
      ensures var left := WithoutStale(old(rows), stale, now);
              && id == PickNext(left, now)
              && (id.None? ==> rows == left)
              && (id.Some? ==> First(left, now, id.value) && rows == N.Claim(left, id.value, token, now))
    {
      rows := map i | i in rows ::
          if i in stale && N.Claimable(rows, i, now) then rows[i].(status := N.Failed, lease := None) else rows[i];
      var ids := rows.Keys;
      var best: Option<Id> := None;
      while ids != {}
        invariant ids <= rows.Keys
        invariant best.Some? ==> N.Claimable(rows, best.value, now)
        invariant forall i :: i in rows && i !in ids && N.Claimable(rows, i, now) ==>
            best.Some? && Before(rows, best.value, i)
        decreases |ids|
      {
        var i :| i in ids;
        ids := ids - {i};
        if N.Claimable(rows, i, now) && (best.None? || Before(rows, i, best.value)) { best := Some(i); }
      }
      if best.None? { return None; }
      id := best;
      assert First(rows, now, best.value);
      var row := rows[best.value];
      rows := rows[best.value := row.(status := N.Sending, attempts := row.attempts + 1, lease := Some(token),
                                      availableAt := now + N.LEASE_SECONDS,
                                      firstAttempt := if row.firstAttempt.Some? then row.firstAttempt else Some(now))];
    }

    method Finish(id: Id, token: Id, status: N.RowStatus, delay: int, now: int)
      modifies this
      ensures rows == N.Finish(old(rows), id, token, status, delay, now)
      ensures N.Leased(old(rows), id, token) ==> id in rows && rows[id].status == status && rows[id].lease.None?
      ensures !N.Leased(old(rows), id, token) ==> rows == old(rows)
      ensures forall other :: other in old(rows) && other != id ==> other in rows && rows[other] == old(rows)[other]
    {
      if id in rows && rows[id].status == N.Sending && rows[id].lease == Some(token) {
        rows := rows[id := rows[id].(status := status, availableAt := now + delay, lease := None)];
      }
    }

    // One bounded pass of the worker.
    method RunOnce(turns: seq<Turn>)
      requires |turns| == 100
      modifies this
      ensures rows == Pass(old(rows), turns)
    {
      hide First, PickNext, WithoutStale, N.Claimable, N.RetryDelay;
      for n := 0 to 100
        invariant Pass(old(rows), turns) == Pass(rows, turns[n..])
      {
        var turn := turns[n];
        assert turns[n..][0] == turn && turns[n..][1..] == turns[n + 1..];
        ghost var before := rows;
        var claimed := Claim(turn.stale, turn.token, turn.now);
        if claimed.None? { return; }
        var id := claimed.value;
        ClaimedRow(WithoutStale(before, turn.stale, turn.now), id, turn.now);
        var row := rows[id];
        var status, delay := N.Sent, 0;
        if N.Exhausted(row.channel, row.attempts, row.firstAttempt.value, turn.clock) {
          status := N.Failed;
        } else if !turn.accepted {
          status := if row.attempts >= N.MAX_ATTEMPTS then N.Failed else N.Pending;
          delay := N.RetryDelay(row.attempts);
        }
        Finish(id, turn.token, status, delay, turn.finishedAt);
      }
    }
  }

  lemma ClaimedRow(rows: map<Id, N.Row>, id: Id, now: int)
    requires First(rows, now, id)
    ensures id in rows
  {
  }
}
