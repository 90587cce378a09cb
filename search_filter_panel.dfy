/**
  The search/sort/filter panel of the sidebar: editing the filter map one
  checkbox at a time, clearing everything, and the "has active filters" test
  that decides whether a clear button is shown.
 */
module SearchFilterPanel {
  import opened Seqs
  import opened JobSort
  import opened JobContext
  import opened Records

  /** The query parameters the panel edits through its three callbacks. */
  datatype QueryState = QueryState(searchTerm: string, sortBy: string, filters: Filters)

  function Other(value: string): string -> bool {
    (item: string) => item != value
  }

  /**
    `handleFilterChange`: a fresh copy of the map in which the category's
    list (empty when absent) has `value` appended when checked, or every
    occurrence of `value` removed when unchecked.
   */
  function HandleFilterChange(filters: Filters, category: string, value: string, checked: bool): (r: Filters)
    ensures r.Keys == filters.Keys + {category}
    ensures forall k :: k in filters && k != category ==> r[k] == filters[k]
    ensures checked ==> r[category] == CategoryValues(filters, category) + [value]
    ensures !checked ==> value !in r[category]
    ensures !checked ==> forall x :: x != value ==>
      multiset(r[category])[x] == multiset(CategoryValues(filters, category))[x]
    ensures !checked ==> IsSubsequence(r[category], CategoryValues(filters, category))
  {
    var current := CategoryValues(filters, category);
    if checked then filters[category := current + [value]]
    else filters[category := Filter(current, Other(value))]
  }

  /** Checking a value that is already there adds a second copy: no de-duplication. */
  lemma CheckingTwiceDuplicates(filters: Filters, category: string, value: string)
    ensures var twice := HandleFilterChange(HandleFilterChange(filters, category, value, true), category, value, true);
      multiset(twice[category])[value] == multiset(CategoryValues(filters, category))[value] + 2
  {
    var once := HandleFilterChange(filters, category, value, true);
    assert CategoryValues(once, category) == CategoryValues(filters, category) + [value];
  }

  /**
    Checking a value that was not in the list and then unchecking it gives
    the list back; a category that was absent is left as an empty list.
   */
  lemma {:induction false} CheckThenUncheckRestores(filters: Filters, category: string, value: string)
    requires value !in CategoryValues(filters, category)
    ensures HandleFilterChange(HandleFilterChange(filters, category, value, true), category, value, false)
         == filters[category := CategoryValues(filters, category)]
  {
    var current := CategoryValues(filters, category);
    var once := HandleFilterChange(filters, category, value, true);
    assert CategoryValues(once, category) == current + [value];
    var kept := Filter(current + [value], Other(value));
    assert kept == current by {
      FilterConcat(current, [value], Other(value));
      FilterKeepsAll(current, Other(value));
      assert Filter([value], Other(value)) == [];
    }
    assert HandleFilterChange(once, category, value, false) == once[category := kept];
  }

  /** `clearAllFilters`: empty search, priority sort, no filters. */
  function ClearAllFilters(): (q: QueryState)
    ensures q.searchTerm == "" && q.sortBy == SortPriority && q.filters == map[]
  {
    QueryState("", SortPriority, map[])
  }

  /** `hasActiveFilters`: a search term, or some category with a checked value. */
  predicate HasActiveFilters(searchTerm: string, filters: Filters)
    ensures !HasActiveFilters(searchTerm, filters) <==>
      searchTerm == "" && forall k :: k in filters ==> !JobContext.Active(filters, k)
  {
    searchTerm != "" || exists k :: k in filters && |filters[k]| > 0
  }

  /** Right after clearing, nothing is active. */
  lemma ClearedIsInactive()
    ensures !HasActiveFilters(ClearAllFilters().searchTerm, ClearAllFilters().filters)
  {
  }

  /** Checking any value makes the panel active. */
  lemma CheckedIsActive(searchTerm: string, filters: Filters, category: string, value: string)
    ensures HasActiveFilters(searchTerm, HandleFilterChange(filters, category, value, true))
  {
    var r := HandleFilterChange(filters, category, value, true);
    assert category in r && |r[category]| > 0;
  }

  /**
    When the panel shows no active filter, the job list holds every job:
    the query's filter stages all pass through.
   */
  lemma InactiveListsEveryJob(jobs: seq<Job>, q: QueryState)
    requires !HasActiveFilters(q.searchTerm, q.filters)
    ensures MatchingJobs(jobs, q.searchTerm, q.filters) == jobs
    ensures multiset(FilteredAndSorted(jobs, q.searchTerm, q.filters, q.sortBy)) == multiset(jobs)
  {
    NoFiltersKeepsAll(jobs, q.filters, q.sortBy);
  }
}
