/**
 * The list derivations the pages share: the current trip's records, the
 * status filter with its `'all'` option, the `amount || 0` sums, the sort
 * by date that the timeline and the dashboard apply, and `slice(0, n)`.
 */
module Views {
  import opened Values
  import Store

  // ---------------------------------------------------------------------
  // Filters

  /** `list.filter(x => x.tripId === tripId)`: the records of one trip, in store order. */
  function ForTrip(list: seq<Record>, tripId: Value): (r: seq<Record>)
    ensures |r| <= |list|
    ensures forall x :: x in r <==> x in list && StrictEquals(Get(x, "tripId"), tripId)
  {
    Filter(list, (x: Record) => StrictEquals(Get(x, "tripId"), tripId))
  }

  /**
   * `list.filter(x => x.tripId === currentTrip?.id)`, as every list page
   * computes it.  With no trip selected the id reads as `undefined`, so the
   * records whose `tripId` is missing or `undefined` are the ones kept.
   */
  function OfCurrentTrip(list: seq<Record>, current: Option<Record>): (r: seq<Record>)
    ensures forall x :: x in r <==> x in list && StrictEquals(Get(x, "tripId"), Store.SelectedId(current))
    ensures current.None? ==> forall x :: x in r <==> x in list && Get(x, "tripId") == Undefined
  {
    ForTrip(list, Store.SelectedId(current))
  }

  /** `list.filter(x => x.status === status)` */
  function WithStatus(list: seq<Record>, status: string): (r: seq<Record>)
    ensures |r| <= |list|
    ensures forall x :: x in r <==> x in list && Get(x, "status") == Str(status)
  {
    Filter(list, (x: Record) => StrictEquals(Get(x, "status"), Str(status)))
  }

  /** The status drop-down of the list pages: `'all'` keeps everything, any other value keeps that status only. */
  function StatusFilter(list: seq<Record>, filter: string): (r: seq<Record>)
    ensures filter == "all" ==> r == list
    ensures filter != "all" ==> forall x :: x in r <==> x in list && Get(x, "status") == Str(filter)
  {
    if filter == "all" then list else WithStatus(list, filter)
  }

  /** Both filters keep the store order: filtering a concatenation filters each part. */
  lemma ForTripConcat(a: seq<Record>, b: seq<Record>, tripId: Value)
    ensures ForTrip(a + b, tripId) == ForTrip(a, tripId) + ForTrip(b, tripId)
  {
    FilterConcat(a, b, (x: Record) => StrictEquals(Get(x, "tripId"), tripId));
  }

  /** A record of the trip, appended to a list, is appended to the trip's part of it. */
  lemma ForTripAppends(list: seq<Record>, x: Record, tripId: Value)
    requires StrictEquals(Get(x, "tripId"), tripId)
    ensures ForTrip(list + [x], tripId) == ForTrip(list, tripId) + [x]
  {
    FilterSnoc(list, x, (y: Record) => StrictEquals(Get(y, "tripId"), tripId));
  }

  /** A list whose every record carries the trip id is kept whole. */
  lemma ForTripKeepsAll(list: seq<Record>, tripId: Value)
    requires forall i | 0 <= i < |list| :: StrictEquals(Get(list[i], "tripId"), tripId)
    ensures ForTrip(list, tripId) == list
  {
    FilterKeepsAll(list, (x: Record) => StrictEquals(Get(x, "tripId"), tripId));
  }

  /** Restricting to a trip twice is restricting once. */
  lemma ForTripIdempotent(list: seq<Record>, tripId: Value)
    ensures ForTrip(ForTrip(list, tripId), tripId) == ForTrip(list, tripId)
  {
    FilterIdempotent(list, (x: Record) => StrictEquals(Get(x, "tripId"), tripId));
  }

  /** A record of another trip changes no trip-scoped list. */
  lemma ForTripSkipsOthers(list: seq<Record>, x: Record, tripId: Value)
    requires !StrictEquals(Get(x, "tripId"), tripId)
    ensures ForTrip(list + [x], tripId) == ForTrip(list, tripId)
  {
    FilterSnoc(list, x, (y: Record) => StrictEquals(Get(y, "tripId"), tripId));
  }

  // ---------------------------------------------------------------------
  // Submitted forms

  /**
   * What a page's form submits: `{ ...form, tripId: currentTrip?.id,
   * ...fields, updatedAt }`, where `fields` are the page's own overrides.
   * The trip id and the update time always win; every other form field is
   * kept unless the page overrides it.
   */
  function Submitted(form: Record, current: Option<Record>, fields: Record, stamp: Value): (r: Record)
    requires "tripId" !in fields && "updatedAt" !in fields
    ensures Get(r, "tripId") == Store.SelectedId(current) && Get(r, "updatedAt") == stamp
    ensures r.Keys == form.Keys + fields.Keys + {"tripId", "updatedAt"}
    ensures forall k | k in fields :: r[k] == fields[k]
    ensures forall k | k in form && k !in fields && k != "tripId" && k != "updatedAt" :: r[k] == form[k]
  {
    form["tripId" := Store.SelectedId(current)] + fields + map["updatedAt" := stamp]
  }

  /**
   * What a page's form modal holds once the record it is given changes.
   * The modal stays mounted and its effect copies in a record being edited
   * (`if (task) setFormData(task)`), so with no record it keeps what it
   * held before: after an edit, that is the edited record.
   */
  function FormOnOpen(held: Record, editing: Option<Record>): (r: Record)
    ensures editing.Some? ==> r == editing.value
    ensures editing.None? ==> r == held
  {
    if editing.Some? then editing.value else held
  }

  /** Opening the form to add after editing a record shows that record, not the blank form. */
  lemma AddAfterEditShowsEdited(blank: Record, edited: Record)
    ensures FormOnOpen(FormOnOpen(blank, Some(edited)), None) == edited
  {
  }

  /** The form as intended: the record being edited, or the blank form when adding. */
  function FormOnOpenFixed(blank: Record, editing: Option<Record>): (r: Record)
    ensures editing.Some? ==> r == editing.value
    ensures editing.None? ==> r == blank
  {
    if editing.Some? then editing.value else blank
  }

  /** With the intended form, adding starts from the blank form whatever was edited before. */
  lemma AddAfterEditStartsBlank(blank: Record, edited: Record)
    ensures FormOnOpenFixed(blank, None) == blank
    ensures FormOnOpenFixed(blank, Some(edited)) == edited
  {
  }

  // ---------------------------------------------------------------------
  // Sums

  /** `x.amount || 0` */
  function Amount(x: Record): int
  {
    OrZero(Get(x, "amount"))
  }

  /** `list.reduce((sum, x) => sum + (x.amount || 0), 0)` */
  function SumAmounts(list: seq<Record>): int
  {
    if list == [] then 0 else Amount(list[0]) + SumAmounts(list[1..])
  }

  /** Every amount is a non-negative number once the zero fallback is applied (the forms ask for `min="0"`). */
  predicate NonNegativeAmounts(list: seq<Record>)
  {
    forall x | x in list :: Amount(x) >= 0
  }

  lemma {:induction false} SumConcat(a: seq<Record>, b: seq<Record>)
    ensures SumAmounts(a + b) == SumAmounts(a) + SumAmounts(b)
  {
    if a == [] {
      assert a + b == b;
    } else {
      assert (a + b)[1..] == a[1..] + b;
      SumConcat(a[1..], b);
    }
  }

  lemma SumSnoc(list: seq<Record>, x: Record)
    ensures SumAmounts(list + [x]) == SumAmounts(list) + Amount(x)
  {
    SumConcat(list, [x]);
    assert SumAmounts([x]) == Amount(x) + SumAmounts([x][1..]);
  }

  /** A missing, zero or unparsable amount adds nothing. */
  lemma SumSkipsMissing(list: seq<Record>, x: Record)
    requires !Truthy(Get(x, "amount"))
    ensures SumAmounts(list + [x]) == SumAmounts(list)
  {
    SumSnoc(list, x);
  }

  lemma {:induction false} SumNonNegative(list: seq<Record>)
    requires NonNegativeAmounts(list)
    ensures SumAmounts(list) >= 0
  {
    if list != [] {
      assert list[0] in list;
      SumNonNegative(list[1..]);
    }
  }

  /** With non-negative amounts, the sum over any filtered part is at most the whole sum. */
  lemma {:induction false} SumFilterAtMost(list: seq<Record>, p: Record -> bool)
    requires NonNegativeAmounts(list)
    ensures SumAmounts(Filter(list, p)) <= SumAmounts(list)
  {
    if list != [] {
      var x, rest := list[0], list[1..];
      assert x in list;
      assert NonNegativeAmounts(rest) by {
        forall y | y in rest ensures Amount(y) >= 0 { assert y in list; }
      }
      SumFilterAtMost(rest, p);
      assert Filter(list, p) == (if p(x) then [x] else []) + Filter(rest, p);
      SumConcat(if p(x) then [x] else [], Filter(rest, p));
    }
  }

  /** With non-negative amounts, the sums of two different statuses together are at most the whole sum. */
  lemma {:induction false} TwoStatusesAtMost(list: seq<Record>, a: string, b: string)
    requires a != b && NonNegativeAmounts(list)
    ensures SumAmounts(WithStatus(list, a)) + SumAmounts(WithStatus(list, b)) <= SumAmounts(list)
  {
    if list != [] {
      var x := list[0];
      assert x in list;
      TwoStatusesAtMost(list[1..], a, b);
      var pa := (y: Record) => StrictEquals(Get(y, "status"), Str(a));
      var pb := (y: Record) => StrictEquals(Get(y, "status"), Str(b));
      assert WithStatus(list, a) == (if pa(x) then [x] else []) + WithStatus(list[1..], a);
      assert WithStatus(list, b) == (if pb(x) then [x] else []) + WithStatus(list[1..], b);
      SumConcat(if pa(x) then [x] else [], WithStatus(list[1..], a));
      SumConcat(if pb(x) then [x] else [], WithStatus(list[1..], b));
    }
  }

  /** The three sums a list page shows: all records, and the records of two statuses. */
  datatype Totals = Totals(all: int, first: int, second: int)

  /**
   * `list.reduce(...)` over all records and over the records of statuses
   * `a` and `b`, each with the zero fallback.  With non-negative amounts
   * the two status sums are non-negative and together at most the whole.
   */
  function StatusTotals(list: seq<Record>, a: string, b: string): (r: Totals)
    ensures NonNegativeAmounts(list) ==> 0 <= r.first && 0 <= r.second
    ensures NonNegativeAmounts(list) && a != b ==> r.first + r.second <= r.all
  {
    var t := Totals(SumAmounts(list), SumAmounts(WithStatus(list, a)), SumAmounts(WithStatus(list, b)));
    if NonNegativeAmounts(list) then
      SumNonNegative(WithStatus(list, a));
      SumNonNegative(WithStatus(list, b));
      if a != b then TwoStatusesAtMost(list, a, b); t else t
    else t
  }

  // ---------------------------------------------------------------------
  // Sorting by date

  /**
   * The sort key `new Date(x.date)`: dates are day numbers; a record
   * without one sorts as day 0.
   */
  function DateKey(x: Record): int
  {
    var d := Get(x, "date");
    if d.Num? then d.n else 0
  }

  predicate SortedByDate(s: seq<Record>)
  {
    forall i, j | 0 <= i < j < |s| :: DateKey(s[i]) <= DateKey(s[j])
  }

  /** Puts `x` into `s` after the last record that is not later than it, and everything after that record. */
  function Insert(s: seq<Record>, x: Record): (r: seq<Record>)
    ensures multiset(r) == multiset(s) + multiset{x}
    ensures |r| == |s| + 1
  {
    if s == [] then [x]
    else if DateKey(s[|s| - 1]) <= DateKey(x) then s + [x]
    else
      assert s == s[..|s| - 1] + [s[|s| - 1]];
      Insert(s[..|s| - 1], x) + [s[|s| - 1]]
  }

  /** Inserting a record no later than `bound` into records no later than `bound` keeps them so. */
  lemma {:induction false} InsertBelow(s: seq<Record>, x: Record, bound: int)
    requires forall i | 0 <= i < |s| :: DateKey(s[i]) <= bound
    requires DateKey(x) <= bound
    ensures forall i | 0 <= i < |Insert(s, x)| :: DateKey(Insert(s, x)[i]) <= bound
  {
    if s != [] && DateKey(s[|s| - 1]) > DateKey(x) {
      InsertBelow(s[..|s| - 1], x, bound);
    }
  }

  lemma {:induction false} InsertSorted(s: seq<Record>, x: Record)
    requires SortedByDate(s)
    ensures SortedByDate(Insert(s, x))
  {
    if s != [] && DateKey(s[|s| - 1]) > DateKey(x) {
      var init, last := s[..|s| - 1], s[|s| - 1];
      InsertSorted(init, x);
      InsertBelow(init, x, DateKey(last));
    }
  }

  /**
   * `items.sort((a, b) => new Date(a.date) - new Date(b.date))`: a stable
   * sort, written as insertion of each record in turn.  The result is in
   * ascending date order and a permutation of the input.
   */
  function SortByDate(s: seq<Record>): (r: seq<Record>)
    ensures multiset(r) == multiset(s)
    ensures |r| == |s|
    ensures SortedByDate(r)
  {
    if s == [] then []
    else
      assert s == s[..|s| - 1] + [s[|s| - 1]];
      InsertSorted(SortByDate(s[..|s| - 1]), s[|s| - 1]);
      Insert(SortByDate(s[..|s| - 1]), s[|s| - 1])
  }

  /** `s.slice(0, n)` */
  function Take(s: seq<Record>, n: nat): (r: seq<Record>)
    ensures |r| == if n < |s| then n else |s|
    ensures r == s[..|r|]
  {
    if n < |s| then s[..n] else s
  }
}
