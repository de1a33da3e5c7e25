/**
 * The expenses page: the current trip's expenses, the status filter, the
 * three totals, the form's submitted record, and the save and delete
 * handlers.  Only saving a new expense reaches the store: saving an edited
 * expense and deleting one merely notify.
 *
 * `parseFloat` of the typed amount and the `updatedAt` timestamp are
 * parameters: the model receives what they return.
 */
module ExpensesPage {
  import opened Values
  import opened Views
  import Store

  /** `filteredExpenses`: the trip's expenses, all of them or those of one status. */
  function FilteredExpenses(expenses: seq<Record>, current: Option<Record>, filter: string): (r: seq<Record>)
    ensures filter == "all" ==> r == OfCurrentTrip(expenses, current)
    ensures filter != "all" ==> forall x :: x in r <==> x in OfCurrentTrip(expenses, current) && Get(x, "status") == Str(filter)
  {
    StatusFilter(OfCurrentTrip(expenses, current), filter)
  }

  /** `totalExpenses`, `approvedExpenses` and `pendingExpenses`: with non-negative amounts, approved plus pending is at most the total. */
  function ExpenseTotals(expenses: seq<Record>, current: Option<Record>): (r: Totals)
    ensures NonNegativeAmounts(expenses) ==> 0 <= r.first && 0 <= r.second && r.first + r.second <= r.all
  {
    StatusTotals(OfCurrentTrip(expenses, current), "approved", "pending")
  }

  /** `ExpenseModal.handleSubmit`: the form with the trip's id, the parsed amount and the update time over it. */
  function Submit(form: Record, current: Option<Record>, parsedAmount: Value, stamp: Value): (r: Record)
    ensures Get(r, "tripId") == Store.SelectedId(current)
    ensures Get(r, "amount") == parsedAmount && Get(r, "updatedAt") == stamp
    ensures r.Keys == form.Keys + {"tripId", "amount", "updatedAt"}
    ensures forall k | k in form && k !in {"tripId", "amount", "updatedAt"} :: r[k] == form[k]
  {
    Submitted(form, current, map["amount" := parsedAmount], stamp)
  }

  /** `handleSave`: only a new expense is dispatched; an edited one is dropped. */
  function Save(editing: Option<Record>, data: Record): (r: Option<Store.Action>)
    ensures r.Some? <==> editing.None?
    ensures r.Some? ==> r.value == Store.AddExpense(data)
  {
    if editing.Some? then None else Some(Store.AddExpense(data))
  }

  /** `handleDelete`, once the user has confirmed: a notification and nothing else. */
  function Delete(id: Value): (r: Option<Store.Action>)
    ensures r.None?
  {
    None
  }

  /**
   * The expense list only ever grows, and only through saving a new
   * expense: an edit or a delete leaves the whole store as it was.
   */
  lemma ExpensesOnlyGrow(s: Store.State, editing: Option<Record>, data: Record, id: Value, freshId: Value, now: Value)
    ensures Store.Dispatch(s, Delete(id), freshId, now) == s
    ensures editing.Some? ==> Store.Dispatch(s, Save(editing, data), freshId, now) == s
    ensures editing.None? ==>
      Store.Dispatch(s, Save(editing, data), freshId, now).expenses == s.expenses + [Store.Stamp(data, freshId, now)]
  {
  }

  /** A new expense submitted while a trip is selected joins the page's list of that trip's expenses. */
  lemma NewExpenseIsListed(s: Store.State, form: Record, amount: Value, stamp: Value, freshId: Value, now: Value)
    requires s.currentTrip.Some? && Get(s.currentTrip.value, "id").Str?
    ensures var data := Submit(form, s.currentTrip, amount, stamp);
      var r := Store.Dispatch(s, Save(None, data), freshId, now);
      OfCurrentTrip(r.expenses, r.currentTrip) == OfCurrentTrip(s.expenses, s.currentTrip) + [Store.Stamp(data, freshId, now)]
  {
    var data := Submit(form, s.currentTrip, amount, stamp);
    var added := Store.Stamp(data, freshId, now);
    Store.AddExpenseStep(s, data, freshId, now);
    assert Get(added, "tripId") == Get(data, "tripId");
    ForTripAppends(s.expenses, added, Store.SelectedId(s.currentTrip));
  }
}
