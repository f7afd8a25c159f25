/** The filtered-operations query: every operation ordered by realisation date, newest
    first, narrowed by a start day, an end day and an account selection, each only when it is
    set. The store answers the query; the model builds the query and states which rows it
    admits. */
module FilteredOperations {
  import opened Records
  import opened Filters

  /** One server-side filter: `.gte`, `.lte` on the realisation date, `.in` on the account. */
  datatype Condition =
    | DateFrom(day: Date)
    | DateUntil(day: Date)
    | AccountAmong(ids: seq<string>)

  /** The query: its filters in the order they were added, and the ordering. */
  datatype Query = Query(conditions: seq<Condition>, newestFirst: bool)

  /** A row passes one filter; a null column passes none of them, as in SQL. */
  predicate Holds(c: Condition, op: Op) {
    match c
    case DateFrom(d) => op.date.Some? && OnOrBefore(d, op.date.value)
    case DateUntil(d) => op.date.Some? && OnOrBefore(op.date.value, d)
    case AccountAmong(ids) => op.account.Some? && op.account.value in ids
  }

  /** The filters of a query combine by conjunction. */
  predicate Admits(q: Query, op: Op) {
    forall i :: 0 <= i < |q.conditions| ==> Holds(q.conditions[i], op)
  }

  /** Which rows the filters are meant to keep, each filter on its own: on or after the start
      day if there is one, on or before the end day if there is one, and in the selection if
      it is not empty. */
  predicate Selected(f: FiltersState, op: Op) {
    (f.dateRange.0.None? || (op.date.Some? && OnOrBefore(f.dateRange.0.value, op.date.value)))
    && (f.dateRange.1.None? || (op.date.Some? && OnOrBefore(op.date.value, f.dateRange.1.value)))
    && (|f.selectedAccounts| == 0 || (op.account.Some? && op.account.value in f.selectedAccounts))
  }

  /** Adding a filter narrows the query by exactly that filter. */
  lemma AdmitsAdded(q: Query, c: Condition, op: Op)
    ensures Admits(q.(conditions := q.conditions + [c]), op) <==> Admits(q, op) && Holds(c, op)
  {
    var r := q.(conditions := q.conditions + [c]);
    if Admits(q, op) && Holds(c, op) {
      forall i | 0 <= i < |r.conditions| ensures Holds(r.conditions[i], op) {
        if i < |q.conditions| {
          assert r.conditions[i] == q.conditions[i];
        }
      }
    }
    if Admits(r, op) {
      assert Holds(r.conditions[|q.conditions|], op);
      forall i | 0 <= i < |q.conditions| ensures Holds(q.conditions[i], op) {
        assert Holds(r.conditions[i], op);
      }
    }
  }

  /** `let query = ...order(...)`, then one `query = query.gte/.lte/.in(...)` per filter that
      is set. */
  method BuildQuery(f: FiltersState) returns (q: Query)
    ensures q.newestFirst
    ensures forall op :: Admits(q, op) <==> Selected(f, op)
    ensures |q.conditions| <= 3
    ensures f.dateRange == (None, None) && f.selectedAccounts == [] ==> q.conditions == []
  {
    var startDate, endDate := f.dateRange.0, f.dateRange.1;
    q := Query([], true);
    if startDate.Some? {
      q := q.(conditions := q.conditions + [DateFrom(startDate.value)]);
    }
    assert forall op :: Admits(q, op) <==> (startDate.None? || Holds(DateFrom(startDate.value), op)) by {
      forall op ensures Admits(q, op) <==> (startDate.None? || Holds(DateFrom(startDate.value), op)) {
        if startDate.Some? {
          AdmitsAdded(Query([], true), DateFrom(startDate.value), op);
        }
      }
    }
    var afterStart := q;
    if endDate.Some? {
      q := q.(conditions := q.conditions + [DateUntil(endDate.value)]);
    }
    assert forall op :: Admits(q, op) <==> Admits(afterStart, op) && (endDate.None? || Holds(DateUntil(endDate.value), op)) by {
      forall op ensures Admits(q, op) <==> Admits(afterStart, op) && (endDate.None? || Holds(DateUntil(endDate.value), op)) {
        if endDate.Some? {
          AdmitsAdded(afterStart, DateUntil(endDate.value), op);
        }
      }
    }
    var afterEnd := q;
    if |f.selectedAccounts| > 0 {
      q := q.(conditions := q.conditions + [AccountAmong(f.selectedAccounts)]);
    }
    forall op ensures Admits(q, op) <==> Admits(afterEnd, op) && (|f.selectedAccounts| == 0 || Holds(AccountAmong(f.selectedAccounts), op)) {
      if |f.selectedAccounts| > 0 {
        AdmitsAdded(afterEnd, AccountAmong(f.selectedAccounts), op);
      }
    }
  }

  /** `["filtered-operations", { startDate, endDate, selectedAccounts }]` */
  datatype QueryKey = QueryKey(name: string, startDate: Option<Date>, endDate: Option<Date>, selectedAccounts: seq<string>)

  function KeyOf(f: FiltersState): QueryKey {
    QueryKey("filtered-operations", f.dateRange.0, f.dateRange.1, f.selectedAccounts)
  }

  /** The key is a function of the filters and tells them apart: equal filters share one
      cached result, and different filters never do. */
  lemma KeyIdentifiesFilters(f: FiltersState, g: FiltersState)
    ensures KeyOf(f) == KeyOf(g) <==> f == g
  {
    if KeyOf(f) == KeyOf(g) {
      assert f.dateRange == (KeyOf(f).startDate, KeyOf(f).endDate);
      assert g.dateRange == (KeyOf(g).startDate, KeyOf(g).endDate);
    }
  }
}
