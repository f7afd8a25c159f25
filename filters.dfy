/** The global filter store: a date range whose ends may be unset, and the selected
    accounts. Every chart that reads filtered operations builds its query from a snapshot of
    this state. */
module Filters {
  import opened Records

  /** What `useFilters()` hands to its readers. */
  datatype FiltersState = FiltersState(dateRange: (Option<Date>, Option<Date>), selectedAccounts: seq<string>)

  /** `dateRange: [null, null]`, `selectedAccounts: []` */
  const Initial: FiltersState := FiltersState((None, None), [])

  /** `set({ dateRange: range })`: replaces the range, keeps the selection. */
  function WithDateRange(s: FiltersState, range: (Option<Date>, Option<Date>)): (r: FiltersState)
    ensures r.dateRange == range && r.selectedAccounts == s.selectedAccounts
  {
    s.(dateRange := range)
  }

  /** `set({ selectedAccounts: accounts })`: replaces the selection, keeps the range. */
  function WithSelectedAccounts(s: FiltersState, accounts: seq<string>): (r: FiltersState)
    ensures r.selectedAccounts == accounts && r.dateRange == s.dateRange
  {
    s.(selectedAccounts := accounts)
  }

  /** Setting the same value twice leaves the state of setting it once, and the two setters
      do not interfere: applied in either order they give the same state. */
  lemma SettersIdempotentAndIndependent(s: FiltersState, range: (Option<Date>, Option<Date>), accounts: seq<string>)
    ensures WithDateRange(WithDateRange(s, range), range) == WithDateRange(s, range)
    ensures WithSelectedAccounts(WithSelectedAccounts(s, accounts), accounts) == WithSelectedAccounts(s, accounts)
    ensures WithSelectedAccounts(WithDateRange(s, range), accounts) == WithDateRange(WithSelectedAccounts(s, accounts), range)
    ensures WithSelectedAccounts(WithDateRange(s, range), accounts) == FiltersState(range, accounts)
  {
  }

  /** The store itself: two fields that the setters overwrite. */
  class FilterStore {
    var dateRange: (Option<Date>, Option<Date>)
    var selectedAccounts: seq<string>

    function State(): FiltersState
      reads this
    {
      FiltersState(dateRange, selectedAccounts)
    }

    constructor ()
      ensures State() == Initial
    {
      dateRange := (None, None);
      selectedAccounts := [];
    }

    method SetDateRange(range: (Option<Date>, Option<Date>))
      modifies this
      ensures State() == WithDateRange(old(State()), range)
    {
      dateRange := range;
    }

    method SetSelectedAccounts(accounts: seq<string>)
      modifies this
      ensures State() == WithSelectedAccounts(old(State()), accounts)
    {
      selectedAccounts := accounts;
    }
  }
}
