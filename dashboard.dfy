/**
 * The dashboard: the current trip's task progress, the open tasks it lists
 * as action items, the next meetings it previews, and its pledge totals.
 * The upcoming-meeting and overdue-task counts compare dates with the clock
 * and are not part of this model; the destinations line is `Destinations`.
 */
module DashboardPage {
  import opened Values
  import opened Views
  import Store

  function OfTrip(current: Option<Record>): Record -> bool
  {
    (x: Record) => StrictEquals(Get(x, "tripId"), Store.SelectedId(current))
  }

  function IsCompleted(x: Record): bool
  {
    StrictEquals(Get(x, "status"), Str("completed"))
  }

  datatype Progress = Progress(total: nat, completed: nat, percent: real)

  /**
   * `totalTasks`, `completedTasks` (trip and status tested in one filter)
   * and `taskProgress`: the completed tasks are among the trip's tasks, and
   * the percentage is 0 when the trip has none.
   */
  function TaskProgress(tasks: seq<Record>, current: Option<Record>): (r: Progress)
    ensures r.total == |OfCurrentTrip(tasks, current)|
    ensures r.completed <= r.total
    ensures 0.0 <= r.percent <= 100.0 && (r.total == 0 ==> r.percent == 0.0)
  {
    var both := (x: Record) => OfTrip(current)(x) && IsCompleted(x);
    var completed := Filter(tasks, both);
    FilterFilter(tasks, OfTrip(current), (x: Record) => IsCompleted(x), both);
    var total := |OfCurrentTrip(tasks, current)|;
    Progress(total, |completed|, Percent(|completed|, total))
  }

  /** The trip's tasks that are not completed, in store order. */
  function OpenTasks(tasks: seq<Record>, current: Option<Record>): (r: seq<Record>)
    ensures forall x :: x in r <==> x in tasks && OfTrip(current)(x) && !IsCompleted(x)
  {
    Filter(tasks, (x: Record) => OfTrip(current)(x) && !IsCompleted(x))
  }

  /**
   * The action items: `tasks.filter(trip && status !== 'completed').slice(0, 5)`.
   * At most five, all open tasks of the trip, the first ones in store
   * order, and five whenever the trip has at least five open tasks.
   */
  function ActionItems(tasks: seq<Record>, current: Option<Record>): (r: seq<Record>)
    ensures |r| <= 5
    ensures |r| <= |OpenTasks(tasks, current)|
    ensures |OpenTasks(tasks, current)| >= 5 ==> |r| == 5
    ensures forall i | 0 <= i < |r| :: r[i] in tasks && OfTrip(current)(r[i]) && !IsCompleted(r[i])
    ensures r == OpenTasks(tasks, current)[..|r|]
  {
    var open := OpenTasks(tasks, current);
    var r := Take(open, 5);
    assert forall i | 0 <= i < |r| :: r[i] in open;
    r
  }

  /**
   * The milestone preview: the trip's meetings sorted by date, first three.
   * At most three, in date order, all meetings of the trip, and three
   * whenever the trip has at least three meetings.
   */
  function Milestones(meetings: seq<Record>, current: Option<Record>): (r: seq<Record>)
    ensures |r| <= 3 && SortedByDate(r)
    ensures |OfCurrentTrip(meetings, current)| >= 3 ==> |r| == 3
    ensures forall i | 0 <= i < |r| :: r[i] in OfCurrentTrip(meetings, current)
  {
    var trip := OfCurrentTrip(meetings, current);
    var sorted := SortByDate(trip);
    SortedPrefix(trip, sorted, 3);
    Take(sorted, 3)
  }

  /** A prefix of a sorted arrangement of `all` is sorted and holds records of `all`. */
  lemma SortedPrefix(all: seq<Record>, sorted: seq<Record>, n: nat)
    requires multiset(sorted) == multiset(all) && SortedByDate(sorted)
    ensures var r := Take(sorted, n);
      SortedByDate(r) && forall i | 0 <= i < |r| :: r[i] in all
  {
    var r := Take(sorted, n);
    forall i | 0 <= i < |r| ensures r[i] in all {
      assert r[i] in multiset(sorted);
    }
  }

  /** The preview holds the earliest meetings: none left out is earlier than one shown. */
  lemma MilestonesAreEarliest(meetings: seq<Record>, current: Option<Record>, x: Record, y: Record)
    requires x in Milestones(meetings, current)
    requires y in OfCurrentTrip(meetings, current) && y !in Milestones(meetings, current)
    ensures DateKey(x) <= DateKey(y)
  {
    var sorted := SortByDate(OfCurrentTrip(meetings, current));
    var r := Milestones(meetings, current);
    assert r == sorted[..|r|];
    assert y in multiset(sorted);
    var j :| 0 <= j < |sorted| && sorted[j] == y;
    var i :| 0 <= i < |r| && r[i] == x;
  }

  datatype PledgeSums = PledgeSums(total: int, confirmed: int)

  /**
   * `totalPledges` and `confirmedPledges` (trip and status tested in one
   * filter): with non-negative amounts the confirmed sum is between 0 and
   * the total.
   */
  function PledgeTotals(pledges: seq<Record>, current: Option<Record>): (r: PledgeSums)
    ensures r.total == SumAmounts(OfCurrentTrip(pledges, current))
    ensures NonNegativeAmounts(pledges) ==> 0 <= r.confirmed <= r.total
  {
    var isConfirmed := (x: Record) => StrictEquals(Get(x, "status"), Str("confirmed"));
    var both := (x: Record) => OfTrip(current)(x) && isConfirmed(x);
    var trip := OfCurrentTrip(pledges, current);
    var confirmed := Filter(pledges, both);
    FilterFilter(pledges, OfTrip(current), isConfirmed, both);
    if NonNegativeAmounts(pledges) then
      SumFilterAtMost(trip, isConfirmed);
      SumNonNegative(confirmed);
      PledgeSums(SumAmounts(trip), SumAmounts(confirmed))
    else PledgeSums(SumAmounts(trip), SumAmounts(confirmed))
  }
}
