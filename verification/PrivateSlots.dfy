// Private-request slots: canonical clock times, the per-day overlap check and the
// selection of slots from a proposal.
module PrivateSlots {
  import opened Common

  datatype Slot = Slot(day: int, start: string, end: string)

  datatype Error = InvalidSlots | SelectionStale | InvalidSelection

  const MAX_SLOTS := 50
  const SECONDS_PER_DAY := 86400

  // ---- Clock times HH:MM:SS ----

  function Digit(c: char): Option<nat> {
    if '0' <= c <= '9' then Some(c as int - '0' as int) else None
  }

  function TwoDigits(s: string): Option<nat>
    requires |s| == 2
  {
    if Digit(s[0]).Some? && Digit(s[1]).Some? then Some(10 * Digit(s[0]).value + Digit(s[1]).value) else None
  }

  // Accepts exactly what parsing and formatting again give back unchanged.
  function ParseClock(s: string): Option<nat> {
    if |s| != 8 || s[2] != ':' || s[5] != ':' then None
    else
      var h, m, sec := TwoDigits(s[..2]), TwoDigits(s[3..5]), TwoDigits(s[6..]);
      if h.Some? && m.Some? && sec.Some? && h.value < 24 && m.value < 60 && sec.value < 60
      then Some(3600 * h.value + 60 * m.value + sec.value) else None
  }

  function Char(n: nat): char
    requires n < 10
  {
    '0' + n as char
  }

  function Two(n: nat): string
    requires n < 100
  {
    [Char(n / 10), Char(n % 10)]
  }

  function FormatClock(n: nat): string
    requires n < SECONDS_PER_DAY
  {
    Two(n / 3600) + ":" + Two(n / 60 % 60) + ":" + Two(n % 60)
  }

  lemma TwoRoundTrip(s: string, n: nat)
    requires |s| == 2 && n < 100
    ensures TwoDigits(s) == Some(n) <==> s == Two(n)
  {
    if TwoDigits(s) == Some(n) {
      assert n / 10 == Digit(s[0]).value && n % 10 == Digit(s[1]).value;
    }
  }

  lemma ClockParts(h: nat, m: nat, s: nat)
    requires h < 24 && m < 60 && s < 60
    ensures var n := 3600 * h + 60 * m + s; n < SECONDS_PER_DAY && n / 3600 == h && n / 60 % 60 == m && n % 60 == s
  {
    var n := 3600 * h + 60 * m + s;
    assert n / 60 == 60 * h + m;
  }

  // A time is accepted exactly when it is the canonical text of a second of the day.
  lemma ClockRoundTrip(s: string, n: nat)
    ensures ParseClock(s) == Some(n) <==> n < SECONDS_PER_DAY && s == FormatClock(n)
  {
    if ParseClock(s) == Some(n) {
      var h, m, sec := TwoDigits(s[..2]).value, TwoDigits(s[3..5]).value, TwoDigits(s[6..]).value;
      ClockParts(h, m, sec);
      TwoRoundTrip(s[..2], h);
      TwoRoundTrip(s[3..5], m);
      TwoRoundTrip(s[6..], sec);
      assert s == s[..2] + [s[2]] + s[3..5] + [s[5]] + s[6..];
    }
    if n < SECONDS_PER_DAY && s == FormatClock(n) {
      assert s[..2] == Two(n / 3600) && s[3..5] == Two(n / 60 % 60) && s[6..] == Two(n % 60);
      TwoRoundTrip(s[..2], n / 3600);
      TwoRoundTrip(s[3..5], n / 60 % 60);
      TwoRoundTrip(s[6..], n % 60);
      assert n == 3600 * (n / 3600) + 60 * (n / 60 % 60) + n % 60 by { Recompose(n); }
    }
  }

  lemma Recompose(n: nat)
    ensures n == 3600 * (n / 3600) + 60 * (n / 60 % 60) + n % 60
  {
    var minutes := n / 60;
    assert minutes / 60 == n / 3600;
  }

  // ---- What a valid request is ----

  datatype Interval = Interval(start: nat, end: nat)

  predicate WellFormed(slot: Slot) {
    && 1 <= slot.day <= 7
    && ParseClock(slot.start).Some? && ParseClock(slot.end).Some?
    && ParseClock(slot.start).value < ParseClock(slot.end).value
  }

  function Span(slot: Slot): Interval
    requires WellFormed(slot)
  {
    Interval(ParseClock(slot.start).value, ParseClock(slot.end).value)
  }

  predicate Disjoint(a: Interval, b: Interval) {
    a.end <= b.start || b.end <= a.start
  }

  ghost predicate AllWellFormed(slots: seq<Slot>) {
    forall i :: 0 <= i < |slots| ==> WellFormed(slots[i])
  }

  ghost predicate SlotsDisjoint(slots: seq<Slot>)
    requires AllWellFormed(slots)
  {
    forall i, j :: 0 <= i < j < |slots| && slots[i].day == slots[j].day ==> Disjoint(Span(slots[i]), Span(slots[j]))
  }

  // Between one and fifty well-formed slots, no two of one day overlapping.
  ghost predicate Acceptable(slots: seq<Slot>) {
    && 1 <= |slots| <= MAX_SLOTS
    && AllWellFormed(slots)
    && SlotsDisjoint(slots)
  }

  // ---- Sorting by start and comparing neighbours ----

  predicate SortedByStart(day: seq<Interval>) {
    forall i, j :: 0 <= i < j < |day| ==> day[i].start <= day[j].start
  }

  predicate NonEmpty(day: seq<Interval>) {
    forall i :: 0 <= i < |day| ==> day[i].start < day[i].end
  }

  predicate PairwiseDisjoint(day: seq<Interval>) {
    forall i, j :: 0 <= i < j < |day| ==> Disjoint(day[i], day[j])
  }

  predicate NeighboursDisjoint(day: seq<Interval>) {
    forall i :: 1 <= i < |day| ==> day[i - 1].end <= day[i].start
  }

  // In a sorted day it is enough to compare neighbours.
  lemma NeighboursSuffice(day: seq<Interval>)
    requires SortedByStart(day) && NonEmpty(day)
    ensures NeighboursDisjoint(day) <==> PairwiseDisjoint(day)
  {
    if NeighboursDisjoint(day) {
      forall i, j | 0 <= i < j < |day| ensures Disjoint(day[i], day[j]) {
        assert day[i].end <= day[i + 1].start;
        assert day[i + 1].start <= day[j].start;
      }
    }
    if PairwiseDisjoint(day) {
      forall i | 1 <= i < |day| ensures day[i - 1].end <= day[i].start {
        assert Disjoint(day[i - 1], day[i]);
      }
    }
  }

  // No interval twice, and any two apart: what a day means regardless of its order.
  ghost predicate Apart(day: multiset<Interval>) {
    && (forall a :: a in day ==> day[a] == 1)
    && forall a, b :: a in day && b in day && a != b ==> Disjoint(a, b)
  }

  predicate ClearOf(group: seq<Interval>, last: Interval) {
    forall k :: 0 <= k < |group| ==> Disjoint(group[k], last)
  }

  lemma PairwiseExtends(rest: seq<Interval>, last: Interval)
    ensures PairwiseDisjoint(rest + [last]) <==> PairwiseDisjoint(rest) && ClearOf(rest, last)
  {
    var day := rest + [last];
    if PairwiseDisjoint(day) {
      forall i | 0 <= i < |rest| ensures Disjoint(rest[i], last) {
        assert day[i] == rest[i] && day[|rest|] == last;
      }
      forall i, j | 0 <= i < j < |rest| ensures Disjoint(rest[i], rest[j]) {
        assert day[i] == rest[i] && day[j] == rest[j];
      }
    }
  }

  lemma ApartExtends(rest: multiset<Interval>, last: Interval)
    requires last.start < last.end
    ensures Apart(rest + multiset{last}) <==> Apart(rest) && forall a :: a in rest ==> Disjoint(a, last)
  {
    var day := rest + multiset{last};
    assert forall a :: a in day <==> a in rest || a == last;
    assert forall a :: a != last ==> day[a] == rest[a];
    assert day[last] == rest[last] + 1;
  }

  lemma {:induction false} PairwiseIsApart(day: seq<Interval>)
    requires NonEmpty(day)
    ensures PairwiseDisjoint(day) <==> Apart(multiset(day))
    decreases |day|
  {
    hide Apart, PairwiseDisjoint;
    if day == [] {
      assert PairwiseDisjoint(day) && Apart(multiset(day)) by { EmptyDay(day); }
    } else {
      var n := |day| - 1;
      var rest, last := day[..n], day[n];
      assert day == rest + [last];
      assert multiset(day) == multiset(rest) + multiset{last};
      PairwiseIsApart(rest);
      PairwiseExtends(rest, last);
      ApartExtends(multiset(rest), last);
      assert ClearOf(rest, last) <==> forall a :: a in multiset(rest) ==> Disjoint(a, last);
    }
  }

  lemma EmptyDay(day: seq<Interval>)
    requires day == []
    ensures PairwiseDisjoint(day) && Apart(multiset(day))
  {
  }

  // The verdict does not depend on how ties between equal starts are sorted.
  lemma AnySortAgrees(day: seq<Interval>, sorted: seq<Interval>)
    requires NonEmpty(day) && multiset(sorted) == multiset(day) && SortedByStart(sorted)
    ensures NeighboursDisjoint(sorted) <==> PairwiseDisjoint(day)
  {
    forall i | 0 <= i < |sorted| ensures sorted[i].start < sorted[i].end {
      assert sorted[i] in multiset(day);
    }
    NeighboursSuffice(sorted);
    PairwiseIsApart(sorted);
    PairwiseIsApart(day);
  }

  lemma InsertKeepsSorted(sorted: seq<Interval>, i: nat, x: Interval)
    requires SortedByStart(sorted) && i <= |sorted|
    requires i > 0 ==> sorted[i - 1].start <= x.start
    requires forall k :: i <= k < |sorted| ==> x.start < sorted[k].start
    ensures SortedByStart(sorted[..i] + [x] + sorted[i..])
  {
    var r := sorted[..i] + [x] + sorted[i..];
    assert forall k :: 0 <= k < |r| ==> r[k] == if k < i then sorted[k] else if k == i then x else sorted[k - 1];
    assert forall k :: 0 <= k < i ==> sorted[k].start <= x.start;
  }

  lemma InsertKeepsElements(sorted: seq<Interval>, i: nat, x: Interval)
    requires i <= |sorted|
    ensures multiset(sorted[..i] + [x] + sorted[i..]) == multiset(sorted) + multiset{x}
  {
    assert sorted == sorted[..i] + sorted[i..];
  }

  method Insert(sorted: seq<Interval>, x: Interval) returns (r: seq<Interval>)
    requires SortedByStart(sorted)
    ensures multiset(r) == multiset(sorted) + multiset{x} && SortedByStart(r)
  {
    hide SortedByStart;
    var i := |sorted|;
    while i > 0 && x.start < sorted[i - 1].start
      invariant 0 <= i <= |sorted|
      invariant forall k :: i <= k < |sorted| ==> x.start < sorted[k].start
    {
      i := i - 1;
    }
    r := sorted[..i] + [x] + sorted[i..];
    InsertKeepsElements(sorted, i, x);
    InsertKeepsSorted(sorted, i, x);
  }

  method Sort(day: seq<Interval>) returns (sorted: seq<Interval>)
    ensures multiset(sorted) == multiset(day) && SortedByStart(sorted)
  {
    hide SortedByStart;
    sorted := [];
    assert SortedByStart(sorted) by { EmptySorted(); }
    for n := 0 to |day|
      invariant multiset(sorted) == multiset(day[..n]) && SortedByStart(sorted)
    {
      assert day[..n + 1] == day[..n] + [day[n]];
      sorted := Insert(sorted, day[n]);
    }
    assert day[..|day|] == day;
  }

  lemma EmptySorted()
    ensures SortedByStart([])
  {
  }

  // ---- The check as the code runs it ----

  // The intervals of one weekday, in request order.
  ghost function OfDay(slots: seq<Slot>, day: int): seq<Interval>
    requires AllWellFormed(slots)
  {
    if slots == [] then []
    else
      var rest := OfDay(slots[..|slots| - 1], day);
      var last := slots[|slots| - 1];
      if last.day == day then rest + [Span(last)] else rest
  }

  lemma {:induction false} OfDayNonEmpty(slots: seq<Slot>, day: int)
    requires AllWellFormed(slots)
    ensures NonEmpty(OfDay(slots, day))
  {
    if slots != [] {
      OfDayNonEmpty(slots[..|slots| - 1], day);
    }
  }

  // Each interval of a day comes from a slot of that day.
  lemma {:induction false} OfDayFrom(slots: seq<Slot>, day: int, k: nat) returns (i: nat)
    requires AllWellFormed(slots) && k < |OfDay(slots, day)|
    ensures i < |slots| && slots[i].day == day && Span(slots[i]) == OfDay(slots, day)[k]
  {
    var rest := slots[..|slots| - 1];
    if k < |OfDay(rest, day)| {
      i := OfDayFrom(rest, day, k);
    } else {
      i := |slots| - 1;
    }
  }

  lemma {:induction false} OfDayHas(slots: seq<Slot>, i: nat) returns (k: nat)
    requires AllWellFormed(slots) && i < |slots|
    ensures k < |OfDay(slots, slots[i].day)| && OfDay(slots, slots[i].day)[k] == Span(slots[i])
  {
    var rest := slots[..|slots| - 1];
    if i < |slots| - 1 {
      k := OfDayHas(rest, i);
    } else {
      k := |OfDay(rest, slots[i].day)|;
    }
  }

  ghost predicate DaysDisjoint(slots: seq<Slot>)
    requires AllWellFormed(slots)
  {
    forall d :: 1 <= d <= 7 ==> PairwiseDisjoint(OfDay(slots, d))
  }

  lemma SlotsDisjointExtends(rest: seq<Slot>, last: Slot)
    requires AllWellFormed(rest + [last]) && AllWellFormed(rest) && WellFormed(last)
    ensures SlotsDisjoint(rest + [last]) <==>
            SlotsDisjoint(rest) && ClearOfSlots(rest, last)
  {
    hide WellFormed, Span, Disjoint;
    var slots := rest + [last];
    assert slots[|rest|] == last;
    assert forall i :: 0 <= i < |rest| ==> slots[i] == rest[i];
    if SlotsDisjoint(slots) {
      forall i | 0 <= i < |rest| && rest[i].day == last.day ensures Disjoint(Span(rest[i]), Span(last)) {
        assert slots[i].day == slots[|rest|].day;
      }
      forall i, j | 0 <= i < j < |rest| && rest[i].day == rest[j].day ensures Disjoint(Span(rest[i]), Span(rest[j])) {
        assert slots[i].day == slots[j].day;
      }
    }
  }

  ghost predicate ClearOfSlots(rest: seq<Slot>, last: Slot)
    requires AllWellFormed(rest) && WellFormed(last)
  {
    forall i :: 0 <= i < |rest| && rest[i].day == last.day ==> Disjoint(Span(rest[i]), Span(last))
  }

  lemma GroupMembers(rest: seq<Slot>, last: Slot)
    requires AllWellFormed(rest) && WellFormed(last)
    ensures ClearOfSlots(rest, last) <==> ClearOf(OfDay(rest, last.day), Span(last))
  {
    hide WellFormed, Span, Disjoint, OfDay;
    var group := OfDay(rest, last.day);
    if ClearOfSlots(rest, last) {
      forall k | 0 <= k < |group| ensures Disjoint(group[k], Span(last)) {
        var i := OfDayFrom(rest, last.day, k);
      }
      assert ClearOf(group, Span(last));
    } else {
      var i :| 0 <= i < |rest| && rest[i].day == last.day && !Disjoint(Span(rest[i]), Span(last));
      var k := OfDayHas(rest, i);
      assert !ClearOf(group, Span(last));
    }
  }

  lemma DaysDisjointExtends(rest: seq<Slot>, last: Slot)
    requires AllWellFormed(rest + [last]) && AllWellFormed(rest) && WellFormed(last)
    ensures DaysDisjoint(rest + [last]) <==> DaysDisjoint(rest) && ClearOf(OfDay(rest, last.day), Span(last))
  {
    var slots, group := rest + [last], OfDay(rest, last.day);
    assert slots[..|slots| - 1] == rest && slots[|slots| - 1] == last;
    hide PairwiseDisjoint, Span, Disjoint, ClearOf;
    assert forall d :: OfDay(slots, d) == if d == last.day then group + [Span(last)] else OfDay(rest, d);
    hide OfDay;
    PairwiseExtends(group, Span(last));
    if DaysDisjoint(slots) {
      assert PairwiseDisjoint(OfDay(slots, last.day));
      forall d | 1 <= d <= 7 ensures PairwiseDisjoint(OfDay(rest, d)) {
        assert PairwiseDisjoint(OfDay(slots, d));
      }
    } else {
      var d :| 1 <= d <= 7 && !PairwiseDisjoint(OfDay(slots, d));
      assert d != last.day ==> !PairwiseDisjoint(OfDay(rest, d));
    }
  }

  // Grouping by day loses no pair and invents none.
  lemma {:induction false} GroupsDisjointExactly(slots: seq<Slot>)
    requires AllWellFormed(slots)
    ensures DaysDisjoint(slots) <==> SlotsDisjoint(slots)
    decreases |slots|
  {
    hide WellFormed, Disjoint, Span;
    if slots != [] {
      hide SlotsDisjoint, DaysDisjoint;
      var rest, last := slots[..|slots| - 1], slots[|slots| - 1];
      assert slots == rest + [last];
      GroupsDisjointExactly(rest);
      SlotsDisjointExtends(rest, last);
      DaysDisjointExtends(rest, last);
      GroupMembers(rest, last);
    }
  }

  // Appends each slot to its day's list, refusing the first malformed one.
  method GroupByDay(slots: seq<Slot>) returns (grouped: map<nat, seq<Interval>>, ok: bool)
    ensures ok <==> AllWellFormed(slots)
    ensures ok ==>
        forall d: nat :: (d in grouped ==> grouped[d] == OfDay(slots, d)) && (d !in grouped ==> OfDay(slots, d) == [])
  {
    hide ParseClock;
    grouped := map[];
    for n := 0 to |slots|
      invariant AllWellFormed(slots[..n])
      invariant forall d: nat :: d in grouped ==> grouped[d] == OfDay(slots[..n], d)
      invariant forall d: nat :: d !in grouped ==> OfDay(slots[..n], d) == []
    {
      var slot := slots[n];
      if slot.day < 1 || slot.day > 7 {
        assert !WellFormed(slots[n]);
        return grouped, false;
      }
      var start, end := ParseClock(slot.start), ParseClock(slot.end);
      if start.None? || end.None? || end.value <= start.value {
        assert !WellFormed(slots[n]);
        return grouped, false;
      }
      var before := if slot.day in grouped then grouped[slot.day] else [];
      assert WellFormed(slot) && Span(slot) == Interval(start.value, end.value);
      assert slots[..n + 1] == slots[..n] + [slot];
      assert slots[..n + 1][..n] == slots[..n];
      grouped := grouped[slot.day := before + [Interval(start.value, end.value)]];
    }
    assert slots[..|slots|] == slots;
    ok := true;
  }

  // Sorts one day by start and compares neighbours.
  method CheckDay(day: seq<Interval>) returns (ok: bool)
    requires NonEmpty(day)
    ensures ok <==> PairwiseDisjoint(day)
  {
    hide PairwiseDisjoint;
    var sorted := Sort(day);
    AnySortAgrees(day, sorted);
    var i := 1;
    while i < |sorted|
      invariant forall k :: 1 <= k < i && k < |sorted| ==> sorted[k - 1].end <= sorted[k].start
    {
      if sorted[i].start < sorted[i - 1].end {
        assert !NeighboursDisjoint(sorted);
        return false;
      }
      i := i + 1;
    }
    ok := true;
  }

  method CheckDays(grouped: map<nat, seq<Interval>>) returns (bad: Option<nat>)
    requires forall d :: d in grouped ==> NonEmpty(grouped[d])
    ensures bad.None? ==> forall d :: d in grouped ==> PairwiseDisjoint(grouped[d])
    ensures bad.Some? ==> bad.value in grouped && !PairwiseDisjoint(grouped[bad.value])
  {
    hide PairwiseDisjoint;
    var days := grouped.Keys;
    while days != {}
      invariant days <= grouped.Keys
      invariant forall d :: d in grouped && d !in days ==> PairwiseDisjoint(grouped[d])
      decreases |days|
    {
      var d :| d in days;
      days := days - {d};
      var fine := CheckDay(grouped[d]);
      if !fine { return Some(d); }
    }
    bad := None;
  }

  // Accepts exactly the acceptable requests.
  method Validate(slots: seq<Slot>) returns (error: Option<Error>)
    ensures error.None? <==> Acceptable(slots)
    ensures error.Some? ==> error.value == InvalidSlots
  {
    hide WellFormed, Disjoint, Span, OfDay, PairwiseDisjoint, NonEmpty;
    if |slots| == 0 || |slots| > MAX_SLOTS { return Some(InvalidSlots); }
    var grouped, ok := GroupByDay(slots);
    if !ok { return Some(InvalidSlots); }
    GroupsDisjointExactly(slots);
    forall d | d in grouped ensures NonEmpty(grouped[d]) {
      OfDayNonEmpty(slots, d);
    }
    var bad := CheckDays(grouped);
    if bad.Some? {
      DayInRange(slots, bad.value);
      return Some(InvalidSlots);
    }
    forall d | 1 <= d <= 7 ensures PairwiseDisjoint(OfDay(slots, d)) {
      if d !in grouped { EmptyDay(OfDay(slots, d)); }
    }
    error := None;
  }

  lemma DayInRange(slots: seq<Slot>, day: int)
    requires AllWellFormed(slots) && !PairwiseDisjoint(OfDay(slots, day))
    ensures 1 <= day <= 7
  {
    if OfDay(slots, day) != [] {
      var i := OfDayFrom(slots, day, 0);
    }
  }

  // ---- Selecting from a proposal ----

  // What an approval may bring: the limit and the proposal it was made against, and indexes.
  datatype Approval = Approval(expectedLimit: Option<int>, snapshot: seq<Slot>, indexes: seq<int>)

  method SameSlots(left: seq<Slot>, right: seq<Slot>) returns (same: bool)
    ensures same <==> left == right
  {
    if |left| != |right| { return false; }
    for i := 0 to |left|
      invariant left[..i] == right[..i]
    {
      if left[i] != right[i] { return false; }
    }
    assert left == left[..|left|] && right == right[..|left|];
    same := true;
  }

  // Distinct indexes of the proposal, at least one.
  ghost predicate ValidIndexes(indexes: seq<int>, count: nat) {
    && indexes != []
    && (forall k :: 0 <= k < |indexes| ==> 0 <= indexes[k] < count)
    && forall j, k :: 0 <= j < k < |indexes| ==> indexes[j] != indexes[k]
  }

  function IndexSet(indexes: seq<int>): set<int> {
    set k | k in indexes
  }

  // The chosen slots in proposal order.
  function Chosen(slots: seq<Slot>, wanted: set<int>): seq<Slot> {
    if slots == [] then []
    else
      var n := |slots| - 1;
      Chosen(slots[..n], wanted) + (if n in wanted then [slots[n]] else [])
  }

  // Without an approval the earlier selection, or else the whole proposal, stands.
  ghost function Selected(proposal: seq<Slot>, approved: seq<Slot>,
                          approval: Option<Approval>): Result<seq<Slot>, Error> {
    if approval.None? then Ok(if approved != [] then approved else proposal)
    else if approval.value.snapshot != proposal then Err(SelectionStale)
    else if !ValidIndexes(approval.value.indexes, |proposal|) then Err(InvalidSelection)
    else Ok(Chosen(proposal, IndexSet(approval.value.indexes)))
  }

  method SelectedSlots(proposal: seq<Slot>, approved: seq<Slot>,
                       approval: Option<Approval>) returns (r: Result<seq<Slot>, Error>)
    ensures r == Selected(proposal, approved, approval)
  {
    if approval.None? { return Ok(if |approved| > 0 then approved else proposal); }
    var wanted := approval.value.indexes;
    var fits := SameSlots(approval.value.snapshot, proposal);
    if !fits { return Err(SelectionStale); }
    if |wanted| == 0 { return Err(InvalidSelection); }
    var seen: set<int> := {};
    for k := 0 to |wanted|
      invariant seen == IndexSet(wanted[..k])
      invariant forall i :: 0 <= i < k ==> 0 <= wanted[i] < |proposal|
      invariant forall i, j :: 0 <= i < j < k ==> wanted[i] != wanted[j]
    {
      if wanted[k] < 0 || wanted[k] >= |proposal| || wanted[k] in seen { return Err(InvalidSelection); }
      seen := seen + {wanted[k]};
    }
    assert wanted[..|wanted|] == wanted;
    var selected: seq<Slot> := [];
    for n := 0 to |proposal|
      invariant selected == Chosen(proposal[..n], seen)
    {
      assert proposal[..n + 1][..n] == proposal[..n];
      if n in seen { selected := selected + [proposal[n]]; }
    }
    assert proposal[..|proposal|] == proposal;
    r := Ok(selected);
  }

  // The positions a choice takes from the proposal, in order.
  ghost function Positions(count: nat, wanted: set<int>): seq<nat> {
    if count == 0 then []
    else Positions(count - 1, wanted) + (if count - 1 in wanted then [count - 1] else [])
  }

  // A selection is the proposal read at exactly the requested indexes, in proposal order.
  lemma {:induction false} ChosenExactly(slots: seq<Slot>, wanted: set<int>)
    ensures var p := Positions(|slots|, wanted);
            && |Chosen(slots, wanted)| == |p|
            && (forall k :: 0 <= k < |p| ==> p[k] < |slots| && Chosen(slots, wanted)[k] == slots[p[k]])
            && (forall j, k :: 0 <= j < k < |p| ==> p[j] < p[k])
            && (forall i: nat :: i in p <==> i < |slots| && i in wanted)
    decreases |slots|
  {
    if slots != [] {
      var n := |slots| - 1;
      ChosenExactly(slots[..n], wanted);
      var p := Positions(n, wanted);
      assert forall k :: 0 <= k < |p| ==> p[k] in p;
    }
  }

  lemma {:induction false} AtMostAll(slots: seq<Slot>, wanted: set<int>)
    ensures |Chosen(slots, wanted)| <= |slots|
    decreases |slots|
  {
    if slots != [] {
      AtMostAll(slots[..|slots| - 1], wanted);
    }
  }

  // Any valid selection from an acceptable proposal is acceptable again.
  lemma SelectionAcceptedAgain(proposal: seq<Slot>, approved: seq<Slot>, approval: Approval)
    requires Acceptable(proposal) && Selected(proposal, approved, Some(approval)).Ok?
    ensures Acceptable(Selected(proposal, approved, Some(approval)).value)
  {
    var wanted := IndexSet(approval.indexes);
    var chosen, p := Chosen(proposal, wanted), Positions(|proposal|, wanted);
    ChosenExactly(proposal, wanted);
    AtMostAll(proposal, wanted);
    assert approval.indexes[0] in wanted;
    assert approval.indexes[0] in p;
    forall i, j | 0 <= i < j < |chosen| && chosen[i].day == chosen[j].day
      ensures Disjoint(Span(chosen[i]), Span(chosen[j]))
    {
      assert p[i] < p[j] && chosen[i] == proposal[p[i]] && chosen[j] == proposal[p[j]];
    }
  }
}
