/**
 * The pledges page: the current trip's pledges, the status filter, the
 * three totals, the form's submitted record and the save and delete
 * handlers, each of which dispatches at most one store action.
 *
 * `parseFloat` of the typed amount and the `updatedAt` timestamp are
 * parameters: the model receives what they return.
 */
module PledgesPage {
  import opened Values
  import opened Views
  import Store

  /** `filteredPledges`: the trip's pledges, all of them or those of one status. */
  function FilteredPledges(pledges: seq<Record>, current: Option<Record>, filter: string): (r: seq<Record>)
    ensures filter == "all" ==> r == OfCurrentTrip(pledges, current)
    ensures filter != "all" ==> forall x :: x in r <==> x in OfCurrentTrip(pledges, current) && Get(x, "status") == Str(filter)
  {
    StatusFilter(OfCurrentTrip(pledges, current), filter)
  }

  /** `totalPledges`, `confirmedPledges` and `receivedPledges`: with non-negative amounts, confirmed plus received is at most the total. */
  function PledgeTotals(pledges: seq<Record>, current: Option<Record>): (r: Totals)
    ensures NonNegativeAmounts(pledges) ==> 0 <= r.first && 0 <= r.second && r.first + r.second <= r.all
  {
    StatusTotals(OfCurrentTrip(pledges, current), "confirmed", "received")
  }

  /** `PledgeModal.handleSubmit`: the form with the trip's id, the parsed amount and the update time over it. */
  function Submit(form: Record, current: Option<Record>, parsedAmount: Value, stamp: Value): (r: Record)
    ensures Get(r, "tripId") == Store.SelectedId(current)
    ensures Get(r, "amount") == parsedAmount && Get(r, "updatedAt") == stamp
    ensures r.Keys == form.Keys + {"tripId", "amount", "updatedAt"}
    ensures forall k | k in form && k !in {"tripId", "amount", "updatedAt"} :: r[k] == form[k]
  {
    Submitted(form, current, map["amount" := parsedAmount], stamp)
  }

  /** `handleSave`: update the pledge being edited with the form's fields winning, or add a new pledge. */
  function Save(editing: Option<Record>, data: Record): (r: Store.Action)
    ensures editing.Some? ==> r.UpdatePledge? && r.patch.Keys == editing.value.Keys + data.Keys
    ensures editing.Some? ==> forall k | k in data :: r.patch[k] == data[k]
    ensures editing.Some? ==> forall k | k in editing.value && k !in data :: r.patch[k] == editing.value[k]
    ensures editing.None? ==> r == Store.AddPledge(data)
  {
    if editing.Some? then Store.UpdatePledge(editing.value + data) else Store.AddPledge(data)
  }

  /** `handleDelete`, once the user has confirmed. */
  function Delete(id: Value): Store.Action
  {
    Store.DeletePledge(id)
  }

  /**
   * Saving an edited pledge replaces that pledge by the old record with
   * the form's fields winning, and leaves every pledge with another id and
   * every other list as it was.
   */
  lemma SaveEditedPledge(s: Store.State, editing: Record, data: Record, i: int, freshId: Value, now: Value)
    requires 0 <= i < |s.pledges| && s.pledges[i] == editing && Get(editing, "id").Str?
    requires "id" in data ==> Get(data, "id") == Get(editing, "id")
    ensures var r := Store.Reduce(s, Save(Some(editing), data), freshId, now);
      |r.pledges| == |s.pledges|
      && r.pledges[i] == editing + data
      && (forall j | 0 <= j < |s.pledges| && Get(s.pledges[j], "id") != Get(editing, "id") :: r.pledges[j] == s.pledges[j])
      && r.tasks == s.tasks && r.meetings == s.meetings && r.trips == s.trips && r.currentTrip == s.currentTrip
  {
    var patch := editing + data;
    assert Get(patch, "id") == Get(editing, "id");
    var r := Store.Reduce(s, Save(Some(editing), data), freshId, now);
    assert r.pledges == Store.MergeById(s.pledges, patch);
    assert editing + patch == patch;
  }

  /**
   * A new pledge submitted while a trip is selected is appended, and the
   * page's list of the trip's pledges grows by exactly that pledge.
   */
  lemma NewPledgeIsListed(s: Store.State, form: Record, amount: Value, stamp: Value, freshId: Value, now: Value)
    requires s.currentTrip.Some? && Get(s.currentTrip.value, "id").Str?
    ensures var data := Submit(form, s.currentTrip, amount, stamp);
      var r := Store.Reduce(s, Save(None, data), freshId, now);
      r.pledges == s.pledges + [Store.Stamp(data, freshId, now)]
      && OfCurrentTrip(r.pledges, r.currentTrip) == OfCurrentTrip(s.pledges, s.currentTrip) + [Store.Stamp(data, freshId, now)]
  {
    var data := Submit(form, s.currentTrip, amount, stamp);
    var added := Store.Stamp(data, freshId, now);
    Store.AddPledgeStep(s, data, freshId, now);
    assert Get(added, "tripId") == Get(data, "tripId");
    ForTripAppends(s.pledges, added, Store.SelectedId(s.currentTrip));
  }
}
