/**
 * The employees page: the employee list narrowed by a free-text search over
 * name, email and role, and by an exact status filter.
 */
module Employees {
  import opened Seqs
  import Text

  /** The employee fields the page filters on. */
  datatype Employee = Employee(name: string, email: string, role: string, status: string)

  /** The search predicate on an already-lowercased query; every field is lowercased before the comparison. */
  predicate SearchMatch(e: Employee, query: string)
  {
    || Text.Contains(Text.ToLower(e.name), query)
    || Text.Contains(Text.ToLower(e.email), query)
    || Text.Contains(Text.ToLower(e.role), query)
  }

  function SearchMatcher(query: string): Employee -> bool
  {
    (e: Employee) => SearchMatch(e, query)
  }

  function StatusIs(status: string): Employee -> bool
  {
    (e: Employee) => e.status == status
  }

  /** `filteredData`: search, then status; an empty filter value is no filter. */
  function FilteredData(data: seq<Employee>, searchQuery: string, statusFilter: string): seq<Employee>
  {
    var bySearch := FilterIf(data, searchQuery != "", SearchMatcher(Text.ToLower(searchQuery)));
    FilterIf(bySearch, statusFilter != "", StatusIs(statusFilter))
  }

  /** The reference definition: a employee is listed when it passes both active filters. */
  predicate Listed(e: Employee, searchQuery: string, statusFilter: string)
  {
    && (searchQuery == "" || SearchMatch(e, Text.ToLower(searchQuery)))
    && (statusFilter == "" || e.status == statusFilter)
  }

  function ListedMatcher(searchQuery: string, statusFilter: string): Employee -> bool
  {
    (e: Employee) => Listed(e, searchQuery, statusFilter)
  }

  /** The two chained filters are one filter by the conjunction of the active ones. */
  lemma FilteredDataIsListed(data: seq<Employee>, searchQuery: string, statusFilter: string)
    ensures FilteredData(data, searchQuery, statusFilter) == Filter(data, ListedMatcher(searchQuery, statusFilter))
  {
    var lower := Text.ToLower(searchQuery);
    var s1 := (e: Employee) => searchQuery == "" || SearchMatch(e, lower);
    FilterIfIsFilter(data, searchQuery != "", SearchMatcher(lower), s1);
    FilterIfAfter(data, s1, statusFilter != "", StatusIs(statusFilter), ListedMatcher(searchQuery, statusFilter));
  }

  /**
   * A employee is listed exactly when it occurs in the data and passes both
   * active filters; the list keeps the data's order.
   */
  lemma FilteredDataMembership(data: seq<Employee>, searchQuery: string, statusFilter: string, e: Employee)
    ensures e in FilteredData(data, searchQuery, statusFilter) <==> e in data && Listed(e, searchQuery, statusFilter)
    ensures IsSubsequence(FilteredData(data, searchQuery, statusFilter), data)
  {
    FilteredDataIsListed(data, searchQuery, statusFilter);
    FilterMembership(data, ListedMatcher(searchQuery, statusFilter), e);
    FilterIsSubsequence(data, ListedMatcher(searchQuery, statusFilter));
  }

  /** Typing the query in upper or lower case lists the same rows. */
  lemma SearchIgnoresQueryCase(data: seq<Employee>, searchQuery: string, statusFilter: string)
    ensures FilteredData(data, Text.ToLower(searchQuery), statusFilter) == FilteredData(data, searchQuery, statusFilter)
  {
    Text.ToLowerIdempotent(searchQuery);
    assert |Text.ToLower(searchQuery)| == |searchQuery|;
  }
}
