/**
 * The vendors page: the vendor list narrowed by a free-text search over
 * name and specialty, and by an exact status filter.
 */
module Vendors {
  import opened Seqs
  import Text

  /** The vendor fields the page filters on. */
  datatype Vendor = Vendor(name: string, specialty: string, status: string)

  /** The search predicate on an already-lowercased query; both fields are lowercased before the comparison. */
  predicate SearchMatch(v: Vendor, query: string)
  {
    || Text.Contains(Text.ToLower(v.name), query)
    || Text.Contains(Text.ToLower(v.specialty), query)
  }

  function SearchMatcher(query: string): Vendor -> bool
  {
    (v: Vendor) => SearchMatch(v, query)
  }

  function StatusIs(status: string): Vendor -> bool
  {
    (v: Vendor) => v.status == status
  }

  /** `filteredData`: search, then status; an empty filter value is no filter. */
  function FilteredData(data: seq<Vendor>, searchQuery: string, statusFilter: string): seq<Vendor>
  {
    var bySearch := FilterIf(data, searchQuery != "", SearchMatcher(Text.ToLower(searchQuery)));
    FilterIf(bySearch, statusFilter != "", StatusIs(statusFilter))
  }

  /** The reference definition: a vendor is listed when it passes both active filters. */
  predicate Listed(v: Vendor, searchQuery: string, statusFilter: string)
  {
    && (searchQuery == "" || SearchMatch(v, Text.ToLower(searchQuery)))
    && (statusFilter == "" || v.status == statusFilter)
  }

  function ListedMatcher(searchQuery: string, statusFilter: string): Vendor -> bool
  {
    (v: Vendor) => Listed(v, searchQuery, statusFilter)
  }

  /** The two chained filters are one filter by the conjunction of the active ones. */
  lemma FilteredDataIsListed(data: seq<Vendor>, searchQuery: string, statusFilter: string)
    ensures FilteredData(data, searchQuery, statusFilter) == Filter(data, ListedMatcher(searchQuery, statusFilter))
  {
    var lower := Text.ToLower(searchQuery);
    var s1 := (v: Vendor) => searchQuery == "" || SearchMatch(v, lower);
    FilterIfIsFilter(data, searchQuery != "", SearchMatcher(lower), s1);
    FilterIfAfter(data, s1, statusFilter != "", StatusIs(statusFilter), ListedMatcher(searchQuery, statusFilter));
  }

  /**
   * A vendor is listed exactly when it occurs in the data and passes both
   * active filters; the list keeps the data's order.
   */
  lemma FilteredDataMembership(data: seq<Vendor>, searchQuery: string, statusFilter: string, v: Vendor)
    ensures v in FilteredData(data, searchQuery, statusFilter) <==> v in data && Listed(v, searchQuery, statusFilter)
    ensures IsSubsequence(FilteredData(data, searchQuery, statusFilter), data)
  {
    FilteredDataIsListed(data, searchQuery, statusFilter);
    FilterMembership(data, ListedMatcher(searchQuery, statusFilter), v);
    FilterIsSubsequence(data, ListedMatcher(searchQuery, statusFilter));
  }

  /** Typing the query in upper or lower case lists the same rows. */
  lemma SearchIgnoresQueryCase(data: seq<Vendor>, searchQuery: string, statusFilter: string)
    ensures FilteredData(data, Text.ToLower(searchQuery), statusFilter) == FilteredData(data, searchQuery, statusFilter)
  {
    Text.ToLowerIdempotent(searchQuery);
    assert |Text.ToLower(searchQuery)| == |searchQuery|;
  }
}
