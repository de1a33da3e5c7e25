/**
 * The analytics page: the summary it derives from the store for the
 * current trip (task, meeting and pledge counts and sums, the meetings per
 * type and the pledged amount per type) and the progress card's ratio.
 *
 * The overdue-task and upcoming-meeting counts compare dates with the
 * clock and are not part of this model.
 */
module AnalyticsPage {
  import opened Values
  import opened Views
  import Store

  // ---------------------------------------------------------------------
  // Dictionaries built by `reduce`

  /** One key of an object used as a dictionary, in insertion order. */
  datatype Entry<T> = Entry(key: Value, value: T)

  function IndexOfKey<T>(acc: seq<Entry<T>>, k: Value): (r: int)
    ensures -1 <= r < |acc|
    ensures r < 0 ==> forall j | 0 <= j < |acc| :: acc[j].key != k
    ensures r >= 0 ==> acc[r].key == k
  {
    if acc == [] then -1
    else if acc[|acc| - 1].key == k then |acc| - 1
    else IndexOfKey(acc[..|acc| - 1], k)
  }

  predicate DistinctKeys<T>(acc: seq<Entry<T>>)
  {
    forall i, j | 0 <= i < j < |acc| :: acc[i].key != acc[j].key
  }

  /** `acc[k]` of a counting dictionary, with `undefined || 0` read as 0. */
  function CountOf(acc: seq<Entry<nat>>, k: Value): nat
  {
    var j := IndexOfKey(acc, k);
    if j >= 0 then acc[j].value else 0
  }

  /** The sum of a counting dictionary's values. */
  function TotalCount(acc: seq<Entry<nat>>): nat
  {
    if acc == [] then 0 else TotalCount(acc[..|acc| - 1]) + acc[|acc| - 1].value
  }

  /** `acc[k] = (acc[k] || 0) + 1`: an existing key keeps its place, a new key goes last. */
  function Bump(acc: seq<Entry<nat>>, k: Value): (r: seq<Entry<nat>>)
    ensures DistinctKeys(acc) ==> DistinctKeys(r)
  {
    var j := IndexOfKey(acc, k);
    if j >= 0 then acc[j := Entry(k, acc[j].value + 1)] else acc + [Entry(k, 1)]
  }

  function TypeOf(x: Record): Value
  {
    Get(x, "type")
  }

  /** The meetings of `ms` whose type is `k`. */
  function OfType(ms: seq<Record>, k: Value): seq<Record>
  {
    Filter(ms, (x: Record) => TypeOf(x) == k)
  }

  /** `tripMeetings.reduce((acc, m) => { acc[m.type] = (acc[m.type] || 0) + 1; ... }, {})` */
  function MeetingsByType(ms: seq<Record>): (r: seq<Entry<nat>>)
    ensures DistinctKeys(r)
  {
    if ms == [] then [] else Bump(MeetingsByType(ms[..|ms| - 1]), TypeOf(ms[|ms| - 1]))
  }

  lemma {:induction false} TotalCountUpdate(acc: seq<Entry<nat>>, j: nat, e: Entry<nat>)
    requires j < |acc|
    ensures TotalCount(acc[j := e]) == TotalCount(acc) - acc[j].value + e.value
  {
    var last := |acc| - 1;
    if j < last {
      assert acc[j := e][..last] == acc[..last][j := e];
      TotalCountUpdate(acc[..last], j, e);
    } else {
      assert acc[j := e][..last] == acc[..last];
    }
  }

  lemma BumpTotal(acc: seq<Entry<nat>>, k: Value)
    ensures TotalCount(Bump(acc, k)) == TotalCount(acc) + 1
  {
    var j := IndexOfKey(acc, k);
    if j >= 0 {
      TotalCountUpdate(acc, j, Entry(k, acc[j].value + 1));
    } else {
      assert (acc + [Entry(k, 1)])[..|acc|] == acc;
    }
  }

  lemma BumpCount(acc: seq<Entry<nat>>, k: Value, k': Value)
    ensures CountOf(Bump(acc, k), k') == CountOf(acc, k') + (if k' == k then 1 else 0)
  {
    var j := IndexOfKey(acc, k);
    if j >= 0 {
      BumpExistingCount(acc, j, k, k');
    } else {
      BumpNewCount(acc, k, k');
    }
  }

  /** A key already present: its count goes up by one in place. */
  lemma BumpExistingCount(acc: seq<Entry<nat>>, j: nat, k: Value, k': Value)
    requires j < |acc| && j == IndexOfKey(acc, k)
    ensures CountOf(Bump(acc, k), k') == CountOf(acc, k') + (if k' == k then 1 else 0)
  {
    var e := Entry(k, acc[j].value + 1);
    assert Bump(acc, k) == acc[j := e];
    if k' != k {
      BumpOtherKey(acc, j, e, k');
    } else {
      BumpSameKey(acc, j, e);
      assert CountOf(acc[j := e], k) == e.value;
    }
  }

  /** A new key: it goes last with count one. */
  lemma BumpNewCount(acc: seq<Entry<nat>>, k: Value, k': Value)
    requires IndexOfKey(acc, k) < 0
    ensures CountOf(Bump(acc, k), k') == CountOf(acc, k') + (if k' == k then 1 else 0)
  {
    var e := Entry(k, 1);
    assert Bump(acc, k) == acc + [e];
    if k' != k {
      AppendOtherKey(acc, e, k');
    }
  }

  lemma {:induction false} BumpOtherKey(acc: seq<Entry<nat>>, j: nat, e: Entry<nat>, k': Value)
    requires j < |acc| && acc[j].key == e.key && e.key != k'
    ensures IndexOfKey(acc[j := e], k') == IndexOfKey(acc, k')
  {
    var last := |acc| - 1;
    if j < last {
      assert acc[j := e][..last] == acc[..last][j := e];
      BumpOtherKey(acc[..last], j, e, k');
    } else {
      assert acc[j := e][..last] == acc[..last];
    }
  }

  lemma {:induction false} BumpSameKey(acc: seq<Entry<nat>>, j: nat, e: Entry<nat>)
    requires j < |acc| && j == IndexOfKey(acc, e.key)
    ensures IndexOfKey(acc[j := e], e.key) == j
  {
    var last := |acc| - 1;
    if j < last {
      assert acc[j := e][..last] == acc[..last][j := e];
      BumpSameKey(acc[..last], j, e);
    }
  }

  lemma AppendOtherKey<T>(acc: seq<Entry<T>>, e: Entry<T>, k': Value)
    requires e.key != k'
    ensures IndexOfKey(acc + [e], k') == IndexOfKey(acc, k')
  {
    assert (acc + [e])[..|acc|] == acc;
  }

  /** Each meeting type is counted as often as it occurs among the meetings. */
  lemma {:induction false} MeetingsByTypeCounts(ms: seq<Record>, k: Value)
    ensures CountOf(MeetingsByType(ms), k) == |OfType(ms, k)|
  {
    if ms != [] {
      var init, last := ms[..|ms| - 1], ms[|ms| - 1];
      assert ms == init + [last];
      MeetingsByTypeCounts(init, k);
      BumpCount(MeetingsByType(init), TypeOf(last), k);
      FilterSnoc(init, last, (x: Record) => TypeOf(x) == k);
    }
  }

  /** The per-type counts add up to the number of meetings. */
  lemma {:induction false} MeetingsByTypeTotal(ms: seq<Record>)
    ensures TotalCount(MeetingsByType(ms)) == |ms|
  {
    if ms != [] {
      var init, last := ms[..|ms| - 1], ms[|ms| - 1];
      MeetingsByTypeTotal(init);
      BumpTotal(MeetingsByType(init), TypeOf(last));
    }
  }

  /** `acc[k]` of the pledge dictionary: `undefined` when the key is absent. */
  function Lookup(acc: seq<Entry<Value>>, k: Value): Value
  {
    var j := IndexOfKey(acc, k);
    if j >= 0 then acc[j].value else Undefined
  }

  /**
   * `acc[k] = (acc[k] || 0) + amount`: the raw amount is added, so a
   * missing amount turns the entry into NaN, and a NaN entry, being falsy,
   * restarts from 0 at the next pledge of that type.
   */
  function Accumulate(acc: seq<Entry<Value>>, k: Value, amount: Value): (r: seq<Entry<Value>>)
    ensures Lookup(r, k) == Plus(if Truthy(Lookup(acc, k)) then Lookup(acc, k) else Num(0), amount)
    ensures forall k' | k' != k :: Lookup(r, k') == Lookup(acc, k')
    ensures DistinctKeys(acc) ==> DistinctKeys(r)
  {
    var j := IndexOfKey(acc, k);
    var old_ := if j >= 0 then acc[j].value else Undefined;
    var e := Entry(k, Plus(if Truthy(old_) then old_ else Num(0), amount));
    if j >= 0 then
      PutKeepsOthers(acc, j, e);
      acc[j := e]
    else
      assert (acc + [e])[..|acc|] == acc;
      forall k' | k' != k ensures IndexOfKey(acc + [e], k') == IndexOfKey(acc, k') {
        AppendOtherKey(acc, e, k');
      }
      acc + [e]
  }

  lemma {:induction false} PutKeepsOthers(acc: seq<Entry<Value>>, j: nat, e: Entry<Value>)
    requires j < |acc| && acc[j].key == e.key && j == IndexOfKey(acc, e.key)
    ensures IndexOfKey(acc[j := e], e.key) == j
    ensures forall k' | k' != e.key :: IndexOfKey(acc[j := e], k') == IndexOfKey(acc, k')
  {
    var last := |acc| - 1;
    if j < last {
      assert acc[j := e][..last] == acc[..last][j := e];
      PutKeepsOthers(acc[..last], j, e);
    } else {
      assert acc[j := e][..last] == acc[..last];
    }
  }

  /** `tripPledges.reduce((acc, p) => { acc[p.type] = (acc[p.type] || 0) + p.amount; ... }, {})` */
  function PledgesByType(ps: seq<Record>): (r: seq<Entry<Value>>)
    ensures DistinctKeys(r)
  {
    if ps == [] then []
    else Accumulate(PledgesByType(ps[..|ps| - 1]), TypeOf(ps[|ps| - 1]), Get(ps[|ps| - 1], "amount"))
  }

  /** The entry of type `k` as a zero-fallback sum: absent while no pledge has that type. */
  function ExpectedEntry(ps: seq<Record>, k: Value): Value
  {
    if |OfType(ps, k)| > 0 then Num(SumAmounts(OfType(ps, k))) else Undefined
  }

  lemma ExpectedEntryStep(init: seq<Record>, last: Record, k: Value)
    requires TypeOf(last) == k ==> Get(last, "amount").Num?
    requires Lookup(PledgesByType(init), k) == ExpectedEntry(init, k)
    ensures Lookup(PledgesByType(init + [last]), k) == ExpectedEntry(init + [last], k)
  {
    var acc := PledgesByType(init);
    PledgesByTypeSnoc(init, last, k);
    ExpectedEntrySnoc(init, last, k);
    if TypeOf(last) == k {
      var before := OfType(init, k);
      if |before| == 0 {
        assert before == [];
      }
      var amount := Get(last, "amount");
      assert Amount(last) == amount.n;
      SameTypeStep(Lookup(acc, k), SumAmounts(before), |before| > 0, amount);
    }
  }

  /**
   * One more pledge: the zero-fallback sum of its own type grows by its
   * amount, and every other type's entry stays as it was.
   */
  lemma ExpectedEntrySnoc(init: seq<Record>, last: Record, k: Value)
    ensures ExpectedEntry(init + [last], k)
         == if TypeOf(last) == k then Num(SumAmounts(OfType(init, k)) + Amount(last)) else ExpectedEntry(init, k)
  {
    OfTypeSnoc(init, last, k);
    if TypeOf(last) == k {
      SumSnoc(OfType(init, k), last);
    }
  }

  /** One more pledge: only the entry of its own type changes, by `(acc[k] || 0) + amount`. */
  lemma PledgesByTypeSnoc(init: seq<Record>, last: Record, k: Value)
    ensures var acc := PledgesByType(init);
      Lookup(PledgesByType(init + [last]), k)
      == if TypeOf(last) == k then Plus(if Truthy(Lookup(acc, k)) then Lookup(acc, k) else Num(0), Get(last, "amount"))
         else Lookup(acc, k)
  {
    var ps := init + [last];
    assert ps[..|init|] == init;
    assert PledgesByType(ps) == Accumulate(PledgesByType(init), TypeOf(last), Get(last, "amount"));
  }

  /** One more meeting or pledge joins the records of its own type, at the end. */
  lemma OfTypeSnoc(init: seq<Record>, last: Record, k: Value)
    ensures OfType(init + [last], k) == if TypeOf(last) == k then OfType(init, k) + [last] else OfType(init, k)
  {
    FilterSnoc(init, last, (x: Record) => TypeOf(x) == k);
  }

  /** One more pledge of the type: its amount is added to the running entry, which starts from 0. */
  lemma SameTypeStep(prev: Value, sum: int, seen: bool, amount: Value)
    requires prev == if seen then Num(sum) else Undefined
    requires !seen ==> sum == 0
    requires amount.Num?
    ensures Plus(if Truthy(prev) then prev else Num(0), amount) == Num(sum + amount.n)
  {
  }

  /**
   * When every pledge of a type has a numeric amount, its entry is the
   * zero-fallback sum of those pledges, and a type no pledge has is absent.
   */
  lemma {:induction false} PledgesByTypeSums(ps: seq<Record>, k: Value)
    requires forall x | x in ps && TypeOf(x) == k :: Get(x, "amount").Num?
    ensures Lookup(PledgesByType(ps), k) == ExpectedEntry(ps, k)
  {
    if ps != [] {
      var init, last := ps[..|ps| - 1], ps[|ps| - 1];
      assert ps == init + [last];
      assert last in ps;
      assert forall x | x in init :: x in ps;
      PledgesByTypeSums(init, k);
      ExpectedEntryStep(init, last, k);
    }
  }

  /**
   * Unlike the totals, the per-type entries have no zero fallback: a last
   * pledge of its type without a numeric amount makes that type's entry
   * NaN, while the type's zero-fallback sum just ignores it.
   */
  lemma MissingAmountIsNaN(ps: seq<Record>, p: Record)
    requires ToNumber(Get(p, "amount")).NaN?
    ensures Lookup(PledgesByType(ps + [p]), TypeOf(p)) == NaN
    ensures SumAmounts(OfType(ps + [p], TypeOf(p))) == SumAmounts(OfType(ps, TypeOf(p)))
  {
    assert (ps + [p])[..|ps|] == ps;
    FilterSnoc(ps, p, (x: Record) => TypeOf(x) == TypeOf(p));
    SumSnoc(OfType(ps, TypeOf(p)), p);
  }

  // ---------------------------------------------------------------------
  // The summary

  datatype Summary = Summary(
    totalTasks: nat,
    completedTasks: nat,
    completionRate: real,
    totalMeetings: nat,
    completedMeetings: nat,
    meetingsByType: seq<Entry<nat>>,
    pledges: Totals,
    pledgesByType: seq<Entry<Value>>)

  /** The `analytics` memo: nothing without a current trip, otherwise the figures of that trip's records only. */
  function Compute(s: Store.State): (r: Option<Summary>)
    ensures r.None? <==> s.currentTrip.None?
  {
    if s.currentTrip.None? then None
    else
      var id := Get(s.currentTrip.value, "id");
      var tripTasks := ForTrip(s.tasks, id);
      var tripMeetings := ForTrip(s.meetings, id);
      var tripPledges := ForTrip(s.pledges, id);
      var completed := |WithStatus(tripTasks, "completed")|;
      Some(Summary(
        |tripTasks|, completed, Percent(completed, |tripTasks|),
        |tripMeetings|, |WithStatus(tripMeetings, "completed")|, MeetingsByType(tripMeetings),
        StatusTotals(tripPledges, "confirmed", "received"), PledgesByType(tripPledges)))
  }

  /** What the summary promises about its own figures. */
  lemma SummaryIsConsistent(s: Store.State)
    requires s.currentTrip.Some?
    ensures var a := Compute(s).value;
      && a.completedTasks <= a.totalTasks
      && 0.0 <= a.completionRate <= 100.0
      && (a.totalTasks == 0 ==> a.completionRate == 0.0)
      && a.completedMeetings <= a.totalMeetings
      && TotalCount(a.meetingsByType) == a.totalMeetings
      && (NonNegativeAmounts(s.pledges) ==> a.pledges.first + a.pledges.second <= a.pledges.all)
  {
    var id := Get(s.currentTrip.value, "id");
    MeetingsByTypeTotal(ForTrip(s.meetings, id));
  }

  /**
   * Only the current trip's records count: two states with the same
   * selected trip whose task, meeting and pledge lists agree on that trip's
   * records have the same summary, whatever else their lists hold.
   */
  lemma OtherTripsIgnored(s: Store.State, t: Store.State)
    requires s.currentTrip == t.currentTrip
    requires s.currentTrip.Some? ==>
      var id := Get(s.currentTrip.value, "id");
      ForTrip(s.tasks, id) == ForTrip(t.tasks, id)
      && ForTrip(s.meetings, id) == ForTrip(t.meetings, id)
      && ForTrip(s.pledges, id) == ForTrip(t.pledges, id)
    ensures Compute(s) == Compute(t)
  {
  }

  /** Dropping every record of another trip from the store leaves the summary as it was. */
  lemma OnlyCurrentTripCounts(s: Store.State)
    requires s.currentTrip.Some?
    ensures var id := Get(s.currentTrip.value, "id");
      Compute(s.(tasks := ForTrip(s.tasks, id), meetings := ForTrip(s.meetings, id),
                 pledges := ForTrip(s.pledges, id))) == Compute(s)
  {
    var id := Get(s.currentTrip.value, "id");
    var t := s.(tasks := ForTrip(s.tasks, id), meetings := ForTrip(s.meetings, id), pledges := ForTrip(s.pledges, id));
    ForTripIdempotent(s.tasks, id);
    ForTripIdempotent(s.meetings, id);
    ForTripIdempotent(s.pledges, id);
    OtherTripsIgnored(t, s);
  }

  /** `ProgressCard`: `target > 0 ? current / target * 100 : 0`. */
  function Progress(current: nat, target: nat): (r: real)
    ensures target == 0 ==> r == 0.0
    ensures current <= target ==> 0.0 <= r <= 100.0
  {
    Percent(current, target)
  }
}
