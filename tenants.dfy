/**
 * The tenants page: the tenant list narrowed by a free-text search over
 * name, email and room, and by an exact status filter.
 */
module Tenants {
  import opened Seqs
  import Text

  /** The tenant fields the page filters on. */
  datatype Tenant = Tenant(name: string, email: string, room: string, status: string)

  /**
   * The search predicate on an already-lowercased query. Name and email
   * are lowercased before the comparison; the room is compared as stored.
   */
  predicate SearchMatch(t: Tenant, query: string)
  {
    || Text.Contains(Text.ToLower(t.name), query)
    || Text.Contains(Text.ToLower(t.email), query)
    || Text.Contains(t.room, query)
  }

  function SearchMatcher(query: string): Tenant -> bool
  {
    (t: Tenant) => SearchMatch(t, query)
  }

  function StatusIs(status: string): Tenant -> bool
  {
    (t: Tenant) => t.status == status
  }

  /** `filteredData`: search, then status; an empty filter value is no filter. */
  function FilteredData(data: seq<Tenant>, searchQuery: string, statusFilter: string): seq<Tenant>
  {
    var bySearch := FilterIf(data, searchQuery != "", SearchMatcher(Text.ToLower(searchQuery)));
    FilterIf(bySearch, statusFilter != "", StatusIs(statusFilter))
  }

  /** The reference definition: a tenant is listed when it passes both active filters. */
  predicate Listed(t: Tenant, searchQuery: string, statusFilter: string)
  {
    && (searchQuery == "" || SearchMatch(t, Text.ToLower(searchQuery)))
    && (statusFilter == "" || t.status == statusFilter)
  }

  function ListedMatcher(searchQuery: string, statusFilter: string): Tenant -> bool
  {
    (t: Tenant) => Listed(t, searchQuery, statusFilter)
  }

  /** The two chained filters are one filter by the conjunction of the active ones. */
  lemma FilteredDataIsListed(data: seq<Tenant>, searchQuery: string, statusFilter: string)
    ensures FilteredData(data, searchQuery, statusFilter) == Filter(data, ListedMatcher(searchQuery, statusFilter))
  {
    var lower := Text.ToLower(searchQuery);
    var s1 := (t: Tenant) => searchQuery == "" || SearchMatch(t, lower);
    FilterIfIsFilter(data, searchQuery != "", SearchMatcher(lower), s1);
    FilterIfAfter(data, s1, statusFilter != "", StatusIs(statusFilter), ListedMatcher(searchQuery, statusFilter));
  }

  /**
   * A tenant is listed exactly when it occurs in the data and passes both
   * active filters; the list keeps the data's order.
   */
  lemma FilteredDataMembership(data: seq<Tenant>, searchQuery: string, statusFilter: string, t: Tenant)
    ensures t in FilteredData(data, searchQuery, statusFilter) <==> t in data && Listed(t, searchQuery, statusFilter)
    ensures IsSubsequence(FilteredData(data, searchQuery, statusFilter), data)
  {
    FilteredDataIsListed(data, searchQuery, statusFilter);
    FilterMembership(data, ListedMatcher(searchQuery, statusFilter), t);
    FilterIsSubsequence(data, ListedMatcher(searchQuery, statusFilter));
  }

  /** Typing the query in upper or lower case lists the same rows. */
  lemma SearchIgnoresQueryCase(data: seq<Tenant>, searchQuery: string, statusFilter: string)
    ensures FilteredData(data, Text.ToLower(searchQuery), statusFilter) == FilteredData(data, searchQuery, statusFilter)
  {
    Text.ToLowerIdempotent(searchQuery);
    assert |Text.ToLower(searchQuery)| == |searchQuery|;
  }

  /**
   * The room is matched case-sensitively against the lowercased query: a
   * tenant in room "B12" is not found by typing "B12" unless the name or
   * email matches, while typing "b12" would not find it either.
   */
  lemma RoomMatchIsCaseSensitive()
    ensures !Listed(Tenant("", "", "B12", "Active"), "B12", "")
    ensures !Listed(Tenant("", "", "B12", "Active"), "b12", "")
    ensures Listed(Tenant("", "", "b12", "Active"), "B12", "")
  {
    var lower := Text.ToLower("B12");
    assert lower == "b12" by {
      assert lower[0] == Text.LowerChar('B') == 'b';
    }
    assert Text.ToLower("b12") == "b12";
    assert Text.ToLower("") == "";
    assert !Text.StartsWith("B12", "b12") by {
      assert "B12"[..3][0] == 'B';
    }
    assert !Text.Contains("B12"[1..], "b12");
    assert Text.StartsWith("b12", "b12") by {
      assert "b12"[..3] == "b12";
    }
  }
}
