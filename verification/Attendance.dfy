// Bulk attendance: de-duplication of a request's items and the single-statement upsert.
module Attendance {
  import opened Common
  import opened Calendar

  datatype Item = Item(enrollment: Id, status: string)

  datatype Row = Row(id: Id, date: Day, status: string)

  // attendances, keyed by (session_id, enrollment_id).
  datatype Key = Key(session: Id, enrollment: Id)

  datatype Error = NoItems | SessionNotFound | RowTwice | SessionCancelled | NotSessionTutor | NotInCohort

  // ---- De-duplication ----

  predicate Mentions(items: seq<Item>, enrollment: Id) {
    exists i :: 0 <= i < |items| && items[i].enrollment == enrollment
  }

  predicate DistinctKeys(items: seq<Item>) {
    forall i, j :: 0 <= i < j < |items| ==> items[i].enrollment != items[j].enrollment
  }

  function LastIndex(items: seq<Item>, enrollment: Id): (k: nat)
    requires Mentions(items, enrollment)
    ensures k < |items| && items[k].enrollment == enrollment && forall i :: k < i < |items| ==>
        items[i].enrollment != enrollment
  {
    if items[|items| - 1].enrollment == enrollment then |items| - 1 else LastIndex(items[..|items| - 1], enrollment)
  }

  predicate Distinct(names: seq<Id>) {
    forall i, j :: 0 <= i < j < |names| ==> names[i] != names[j]
  }

  // The enrollments of a request in the order they first appear.
  function Names(items: seq<Item>): (names: seq<Id>)
    ensures forall e :: e in names <==> Mentions(items, e)
    ensures Distinct(names)
  {
    if items == [] then []
    else
      var n := |items| - 1;
      MentionsOneMore(items[..n], items[n]);
      assert items == items[..n] + [items[n]];
      if items[n].enrollment in Names(items[..n]) then Names(items[..n]) else Names(items[..n]) + [items[n].enrollment]
  }

  // One entry per enrollment, in first-seen order, each with its last status.
  function Dedupe(items: seq<Item>): (out: seq<Item>)
    ensures |out| == |Names(items)|
    ensures forall k :: 0 <= k < |out| ==>
        out[k].enrollment == Names(items)[k] && out[k] == items[LastIndex(items, Names(items)[k])]
  {
    var names := Names(items);
    seq(|names|, k requires 0 <= k < |names| => items[LastIndex(items, names[k])])
  }

  lemma MentionsOneMore(items: seq<Item>, item: Item)
    ensures forall e :: Mentions(items + [item], e) <==> Mentions(items, e) || e == item.enrollment
  {
    var all := items + [item];
    forall e ensures Mentions(all, e) <==> Mentions(items, e) || e == item.enrollment {
      assert all[|items|] == item;
      if Mentions(items, e) {
        var i :| 0 <= i < |items| && items[i].enrollment == e;
        assert all[i] == items[i];
      }
    }
  }

  // Appending an item moves only its own last position.
  lemma LastIndexOneMore(items: seq<Item>, item: Item, e: Id)
    requires Mentions(items + [item], e)
    ensures e == item.enrollment ==> LastIndex(items + [item], e) == |items|
    ensures e != item.enrollment ==> Mentions(items, e) && LastIndex(items + [item], e) == LastIndex(items, e)
  {
    MentionsOneMore(items, item);
    assert (items + [item])[..|items|] == items;
  }

  lemma NamesOneMore(items: seq<Item>, item: Item)
    ensures Names(items + [item]) == if item.enrollment in Names(items) then Names(items)
                                     else Names(items) + [item.enrollment]
  {
    assert (items + [item])[..|items|] == items;
  }

  // First-seen order: what a prefix of the request names comes first, unchanged.
  lemma {:induction false} NamesOfPrefix(items: seq<Item>, n: nat)
    requires n <= |items|
    ensures Names(items[..n]) <= Names(items)
    decreases |items|
  {
    if n < |items| {
      var m := |items| - 1;
      NamesOfPrefix(items[..m], n);
      assert items[..m][..n] == items[..n];
      assert items == items[..m] + [items[m]];
      NamesOneMore(items[..m], items[m]);
    } else {
      assert items[..n] == items;
    }
  }

  lemma DedupeOverwrites(items: seq<Item>, item: Item, i: nat)
    requires i < |Names(items)| && Names(items)[i] == item.enrollment
    ensures Dedupe(items + [item]) == Dedupe(items)[i := item]
  {
    hide LastIndex, Mentions, Names;
    NamesOneMore(items, item);
    var all := items + [item];
    forall k | 0 <= k < |Names(items)| ensures Dedupe(all)[k] == Dedupe(items)[i := item][k] {
      LastIndexOneMore(items, item, Names(items)[k]);
    }
  }

  lemma DedupeAppends(items: seq<Item>, item: Item)
    requires item.enrollment !in Names(items)
    ensures Dedupe(items + [item]) == Dedupe(items) + [item]
  {
    hide LastIndex, Mentions, Names;
    NamesOneMore(items, item);
    var all := items + [item];
    forall k | 0 <= k < |Names(all)| ensures Dedupe(all)[k] == (Dedupe(items) + [item])[k] {
      LastIndexOneMore(items, item, Names(all)[k]);
      if k < |Names(items)| {
        assert Names(items)[k] in Names(items);
      }
    }
  }

  method DedupeBulkItems(items: seq<Item>) returns (out: seq<Item>)
    ensures out == Dedupe(items)
  {
    hide LastIndex, Mentions, Names;
    var seen: map<Id, nat> := map[];
    out := [];
    NamesOfNone(items[..0]);
    for n := 0 to |items|
      invariant out == Dedupe(items[..n])
      invariant forall e :: e in seen <==> e in Names(items[..n])
      invariant forall e :: e in seen ==> seen[e] < |out| && Names(items[..n])[seen[e]] == e
    {
      var item := items[n];
      assert items[..n + 1] == items[..n] + [item];
      NamesOneMore(items[..n], item);
      if item.enrollment in seen {
        DedupeOverwrites(items[..n], item, seen[item.enrollment]);
        out := out[seen[item.enrollment] := item];
      } else {
        DedupeAppends(items[..n], item);
        seen := seen[item.enrollment := |out|];
        out := out + [item];
      }
    }
    assert items[..|items|] == items;
  }

  lemma NamesOfNone(items: seq<Item>)
    requires items == []
    ensures Names(items) == [] && Dedupe(items) == []
  {
  }

  // Distinct enrollments, the same ones as the request's, each with its last status.
  lemma DedupeExactly(items: seq<Item>)
    ensures DistinctKeys(Dedupe(items))
    ensures forall e :: Mentions(items, e) <==> Mentions(Dedupe(items), e)
    ensures forall e :: Mentions(items, e) ==>
        Mentions(Dedupe(items), e) && Dedupe(items)[LastIndex(Dedupe(items), e)] == items[LastIndex(items, e)]
  {
    hide LastIndex;
    var out, names := Dedupe(items), Names(items);
    forall e | Mentions(items, e) ensures Mentions(out, e) && out[LastIndex(out, e)] == items[LastIndex(items, e)] {
      assert e in names;
      var k :| 0 <= k < |names| && names[k] == e;
      assert out[k].enrollment == e;
      assert out[LastIndex(out, e)].enrollment == names[LastIndex(out, e)];
    }
    forall e | Mentions(out, e) ensures Mentions(items, e) {
      var k :| 0 <= k < |out| && out[k].enrollment == e;
      assert names[k] in names;
    }
  }

  lemma {:induction false} DedupeNoLonger(items: seq<Item>)
    ensures |Dedupe(items)| <= |items| && (items == [] <==> Dedupe(items) == [])
    decreases |items|
  {
    if items != [] {
      var n := |items| - 1;
      DedupeNoLonger(items[..n]);
      assert items == items[..n] + [items[n]];
      NamesOneMore(items[..n], items[n]);
      assert Names(items[..n]) == [] ==> items[n].enrollment !in Names(items[..n]);
    }
  }

  // ---- The upsert ----

  // INSERT ... ON CONFLICT DO UPDATE of one item; an existing row keeps its id.
  function UpsertOne(rows: map<Key, Row>, session: Id, date: Day, item: Item, id: Id): map<Key, Row> {
    var key := Key(session, item.enrollment);
    rows[key := Row(if key in rows then rows[key].id else id, date, item.status)]
  }

  function UpsertAll(rows: map<Key, Row>, session: Id, date: Day, items: seq<Item>, ids: seq<Id>): map<Key, Row>
    requires |ids| >= |items|
    decreases |items|
  {
    if items == [] then rows
    else
      var n := |items| - 1;
      UpsertOne(UpsertAll(rows, session, date, items[..n], ids), session, date, items[n], ids[n])
  }

  // One statement may not touch the same key twice.
  ghost function UpsertBulk(rows: map<Key, Row>, session: Id, date: Option<Day>, items: seq<Item>,
                            ids: seq<Id>): Result<map<Key, Row>, Error>
    requires |ids| >= |items|
  {
    if items == [] then Err(NoItems)
    else if date.None? then Err(SessionNotFound)
    else if !DistinctKeys(items) then Err(RowTwice)
    else Ok(UpsertAll(rows, session, date.value, items, ids))
  }

  // What a list of items makes of the table, key by key.
  ghost predicate Written(rows: map<Key, Row>, session: Id, date: Day, items: seq<Item>, after: map<Key, Row>) {
    && (forall key :: key in rows ==> key in after && after[key].id == rows[key].id)
    && (forall key :: key in after <==> key in rows || (key.session == session && Mentions(items, key.enrollment)))
    && (forall key :: key in after ==>
          if key.session == session && Mentions(items, key.enrollment)
          then after[key].date == date && after[key].status == items[LastIndex(items, key.enrollment)].status
          else key in rows && after[key] == rows[key])
  }

  lemma {:induction false} UpsertAllWrites(rows: map<Key, Row>, session: Id, date: Day, items: seq<Item>, ids: seq<Id>)
    requires |ids| >= |items|
    ensures Written(rows, session, date, items, UpsertAll(rows, session, date, items, ids))
    decreases |items|
  {
    if items != [] {
      var n := |items| - 1;
      UpsertAllWrites(rows, session, date, items[..n], ids);
      WrittenStep(rows, session, date, items[..n], UpsertAll(rows, session, date, items[..n], ids), items[n], ids[n]);
      assert items == items[..n] + [items[n]];
    }
  }

  lemma WrittenStep(rows: map<Key, Row>, session: Id, date: Day, items: seq<Item>, after: map<Key, Row>, item: Item,
                    id: Id)
    requires Written(rows, session, date, items, after)
    ensures Written(rows, session, date, items + [item], UpsertOne(after, session, date, item, id))
  {
    var all, u := items + [item], UpsertOne(after, session, date, item, id);
    MentionsOneMore(items, item);
    hide Mentions, LastIndex;
    forall key | key in u
      ensures if key.session == session && Mentions(all, key.enrollment)
              then u[key].date == date && u[key].status == all[LastIndex(all, key.enrollment)].status
              else key in rows && u[key] == rows[key]
    {
      if Mentions(all, key.enrollment) {
        LastIndexOneMore(items, item, key.enrollment);
      }
    }
  }

  // The same rows, dates and statuses; only ids of new rows may differ.
  ghost predicate SameAttendance(a: map<Key, Row>, b: map<Key, Row>) {
    a.Keys == b.Keys && forall key :: key in a ==> a[key].date == b[key].date && a[key].status == b[key].status
  }

  // Upserting the de-duplicated list in one statement never conflicts with itself and leaves
  // what applying the original items one by one would.
  lemma BulkIsOneByOne(rows: map<Key, Row>, session: Id, date: Day, items: seq<Item>, ids: seq<Id>)
    requires items != [] && |ids| >= |items|
    ensures |Dedupe(items)| <= |ids|
    ensures UpsertBulk(rows, session, Some(date), Dedupe(items), ids).Ok?
    ensures SameAttendance(UpsertBulk(rows, session, Some(date), Dedupe(items), ids).value,
                           UpsertAll(rows, session, date, items, ids))
  {
    hide UpsertAll, Dedupe, Written, SameAttendance, Mentions;
    DedupeNoLonger(items);
    DedupeDistinct(items);
    UpsertAllWrites(rows, session, date, items, ids);
    UpsertAllWrites(rows, session, date, Dedupe(items), ids);
    var bulk, single := UpsertAll(rows, session, date, Dedupe(items), ids), UpsertAll(rows, session, date, items, ids);
    WrittenAgree(rows, session, date, items, bulk, single);
  }

  lemma DedupeDistinct(items: seq<Item>)
    ensures DistinctKeys(Dedupe(items))
  {
    DedupeExactly(items);
  }

  lemma WrittenAgree(rows: map<Key, Row>, session: Id, date: Day, items: seq<Item>, bulk: map<Key, Row>,
                     single: map<Key, Row>)
    requires Written(rows, session, date, Dedupe(items), bulk) && Written(rows, session, date, items, single)
    ensures SameAttendance(bulk, single)
  {
    hide Dedupe, Mentions, LastIndex, DistinctKeys;
    DedupeExactly(items);
    forall key ensures key in bulk <==> key in single {
    }
    forall key | key in bulk
      ensures key in single && bulk[key].date == single[key].date && bulk[key].status == single[key].status
    {
    }
  }

  // Sending the same request again leaves the very same rows, ids included.
  lemma RepeatKeepsRows(rows: map<Key, Row>, session: Id, date: Day, items: seq<Item>, ids: seq<Id>, newIds: seq<Id>)
    requires |ids| >= |items| && |newIds| >= |items|
    ensures var once := UpsertAll(rows, session, date, items, ids);
            UpsertAll(once, session, date, items, newIds) == once
  {
    hide UpsertAll;
    var once := UpsertAll(rows, session, date, items, ids);
    var twice := UpsertAll(once, session, date, items, newIds);
    UpsertAllWrites(rows, session, date, items, ids);
    UpsertAllWrites(once, session, date, items, newIds);
    assert twice.Keys == once.Keys;
    forall key | key in once ensures twice[key] == once[key] {
    }
  }

  // The statement refuses exactly the lists that de-duplication would change.
  lemma DuplicateRefused(rows: map<Key, Row>, session: Id, date: Day, items: seq<Item>, ids: seq<Id>)
    requires |ids| >= |items| && items != []
    ensures UpsertBulk(rows, session, Some(date), items, ids).Ok? <==> Dedupe(items) == items
  {
    hide UpsertAll, LastIndex;
    DedupeExactly(items);
    if DistinctKeys(items) {
      DistinctIsDeduped(items);
    }
  }

  lemma {:induction false} DistinctIsDeduped(items: seq<Item>)
    requires DistinctKeys(items)
    ensures Dedupe(items) == items
    decreases |items|
  {
    if items == [] {
      NamesOfNone(items);
    } else {
      var n := |items| - 1;
      DistinctIsDeduped(items[..n]);
      assert items == items[..n] + [items[n]];
      assert !Mentions(items[..n], items[n].enrollment);
      DedupeAppends(items[..n], items[n]);
    }
  }

  class AttendanceRepository {
    var rows: map<Key, Row>

    method Upsert(session: Id, date: Option<Day>, items: seq<Item>, ids: seq<Id>) returns (error: Option<Error>)
      requires |ids| >= |items|
      modifies this
      ensures error.None? ==> UpsertBulk(old(rows), session, date, items, ids) == Ok(rows)
      ensures error.Some? ==> UpsertBulk(old(rows), session, date, items, ids) == Err(error.value) && rows == old(rows)
    {
      hide UpsertOne;
      if |items| == 0 { return Some(NoItems); }
      if date.None? { return Some(SessionNotFound); }
      var before := rows;
      var touched: set<Id> := {};
      for n := 0 to |items|
        invariant rows == UpsertAll(before, session, date.value, items[..n], ids)
        invariant DistinctKeys(items[..n]) && forall e :: e in touched <==> Mentions(items[..n], e)
      {
        var item := items[n];
        assert items[..n + 1] == items[..n] + [item];
        MentionsOneMore(items[..n], item);
        if item.enrollment in touched {
          NotDistinct(items, n);
          rows := before;
          return Some(RowTwice);
        }
        touched := touched + {item.enrollment};
        assert items[..n + 1][..n] == items[..n];
        rows := UpsertOne(rows, session, date.value, item, ids[n]);
      }
      assert items[..|items|] == items;
      error := None;
    }

    // The request as the service handles it: for the session's tutor, and for enrollments of
    // the session's cohort alone.
    method CreateBulk(session: Id, date: Option<Day>, cancelled: bool, isTutor: bool, cohort: set<Id>,
                      items: seq<Item>, ids: seq<Id>)
      returns (error: Option<Error>)
      requires |ids| >= |items|
      modifies this
      ensures error.None? ==> date.Some? && SameAttendance(rows, UpsertAll(old(rows), session, date.value, items, ids))
      ensures error.Some? ==> rows == old(rows)
      ensures error == if date.None? then Some(SessionNotFound)
                       else if cancelled then Some(SessionCancelled)
                       else if !isTutor then Some(NotSessionTutor)
                       else if !(forall i :: 0 <= i < |items| ==> items[i].enrollment in cohort) then Some(NotInCohort)
                       else if items == [] then Some(NoItems) else None
    {
      if date.None? { return Some(SessionNotFound); }
      if cancelled { return Some(SessionCancelled); }
      if !isTutor { return Some(NotSessionTutor); }
      var deduped := DedupeBulkItems(items);
      DedupeExactly(items);
      for k := 0 to |deduped|
        invariant forall i :: 0 <= i < k ==> deduped[i].enrollment in cohort
      {
        if deduped[k].enrollment !in cohort {
          Mentioned(items, deduped, k);
          return Some(NotInCohort);
        }
      }
      forall i | 0 <= i < |items| ensures items[i].enrollment in cohort {
        Mentioned(deduped, items, i);
      }
      DedupeNoLonger(items);
      error := Upsert(session, date, deduped, ids);
      if items != [] { BulkIsOneByOne(old(rows), session, date.value, items, ids); }
    }
  }

  // An entry of one list is named in the other when both name the same enrollments.
  lemma Mentioned(a: seq<Item>, b: seq<Item>, k: nat)
    requires (forall e :: Mentions(a, e) <==> Mentions(b, e)) && k < |b|
    ensures exists i :: 0 <= i < |a| && a[i].enrollment == b[k].enrollment
  {
    assert Mentions(b, b[k].enrollment);
  }

  lemma NotDistinct(items: seq<Item>, n: nat)
    requires n < |items| && Mentions(items[..n], items[n].enrollment)
    ensures !DistinctKeys(items)
  {
    var i :| 0 <= i < n && items[..n][i].enrollment == items[n].enrollment;
    assert items[i].enrollment == items[n].enrollment;
  }
}
