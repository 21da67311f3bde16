/**
 * The accounts page: the transaction list narrowed by a free-text search
 * and by exact type and status filters, and the income / expenses / net
 * summary computed over the narrowed list.
 */
module Accounts {
  import opened Common
  import opened Seqs
  import Text

  /** The transaction fields the page filters and sums on; amounts are integers here. */
  datatype Transaction = Transaction(
    ref: string,
    tenantName: Option<string>,
    kind: string,
    status: string,
    amount: int)

  /** The search predicate on an already-lowercased query. */
  predicate SearchMatch(t: Transaction, query: string)
  {
    || Text.Contains(Text.ToLower(t.ref), query)
    || (t.tenantName.Some? && Text.Contains(Text.ToLower(t.tenantName.value), query))
  }

  function SearchMatcher(query: string): Transaction -> bool
  {
    (t: Transaction) => SearchMatch(t, query)
  }

  function KindIs(kind: string): Transaction -> bool
  {
    (t: Transaction) => t.kind == kind
  }

  function StatusIs(status: string): Transaction -> bool
  {
    (t: Transaction) => t.status == status
  }

  /** `filteredData`: search, then type, then status; an empty filter value is no filter. */
  function FilteredData(data: seq<Transaction>, searchQuery: string, typeFilter: string, statusFilter: string): seq<Transaction>
  {
    var bySearch := FilterIf(data, searchQuery != "", SearchMatcher(Text.ToLower(searchQuery)));
    var byType := FilterIf(bySearch, typeFilter != "", KindIs(typeFilter));
    FilterIf(byType, statusFilter != "", StatusIs(statusFilter))
  }

  /** The reference definition: a transaction is listed when it passes every active filter. */
  predicate Listed(t: Transaction, searchQuery: string, typeFilter: string, statusFilter: string)
  {
    && (searchQuery == "" || SearchMatch(t, Text.ToLower(searchQuery)))
    && (typeFilter == "" || t.kind == typeFilter)
    && (statusFilter == "" || t.status == statusFilter)
  }

  function ListedMatcher(searchQuery: string, typeFilter: string, statusFilter: string): Transaction -> bool
  {
    (t: Transaction) => Listed(t, searchQuery, typeFilter, statusFilter)
  }

  /** The three chained filters are one filter by the conjunction of the active ones. */
  lemma FilteredDataIsListed(data: seq<Transaction>, searchQuery: string, typeFilter: string, statusFilter: string)
    ensures FilteredData(data, searchQuery, typeFilter, statusFilter)
         == Filter(data, ListedMatcher(searchQuery, typeFilter, statusFilter))
  {
    var lower := Text.ToLower(searchQuery);
    var s1 := (t: Transaction) => searchQuery == "" || SearchMatch(t, lower);
    var s2 := (t: Transaction) => s1(t) && (typeFilter == "" || t.kind == typeFilter);
    FilterIfIsFilter(data, searchQuery != "", SearchMatcher(lower), s1);
    FilterIfAfter(data, s1, typeFilter != "", KindIs(typeFilter), s2);
    FilterIfAfter(data, s2, statusFilter != "", StatusIs(statusFilter), ListedMatcher(searchQuery, typeFilter, statusFilter));
  }

  /**
   * A transaction is listed exactly when it occurs in the data and passes
   * every active filter; the list keeps the data's order.
   */
  lemma FilteredDataMembership(data: seq<Transaction>, searchQuery: string, typeFilter: string, statusFilter: string, t: Transaction)
    ensures t in FilteredData(data, searchQuery, typeFilter, statusFilter)
        <==> t in data && Listed(t, searchQuery, typeFilter, statusFilter)
    ensures IsSubsequence(FilteredData(data, searchQuery, typeFilter, statusFilter), data)
  {
    FilteredDataIsListed(data, searchQuery, typeFilter, statusFilter);
    FilterMembership(data, ListedMatcher(searchQuery, typeFilter, statusFilter), t);
    FilterIsSubsequence(data, ListedMatcher(searchQuery, typeFilter, statusFilter));
  }

  /** Typing the query in upper or lower case lists the same rows. */
  lemma SearchIgnoresQueryCase(data: seq<Transaction>, searchQuery: string, typeFilter: string, statusFilter: string)
    ensures FilteredData(data, Text.ToLower(searchQuery), typeFilter, statusFilter) == FilteredData(data, searchQuery, typeFilter, statusFilter)
  {
    Text.ToLowerIdempotent(searchQuery);
    assert |Text.ToLower(searchQuery)| == |searchQuery|;
  }

  /** With every filter empty the whole list is shown. */
  lemma NoFiltersShowsAll(data: seq<Transaction>)
    ensures FilteredData(data, "", "", "") == data
  {
  }

  // ---------------------------------------------------------------- summary

  function Amount(t: Transaction): int
  {
    t.amount
  }

  predicate IsIncome(t: Transaction)
  {
    t.kind == "Rent" || t.kind == "Deposit"
  }

  datatype Summary = Summary(income: int, expenses: int, net: int)

  /** The `summary` memo over the rows it is given. */
  function Summarize(rows: seq<Transaction>): (s: Summary)
    ensures s.net == s.income - s.expenses
  {
    var income := Sum(Filter(rows, IsIncome), Amount);
    var expenses := Sum(Filter(rows, KindIs("Expense")), Amount);
    var refunds := Sum(Filter(rows, KindIs("Refund")), Amount);
    Summary(income, expenses + refunds, income - expenses - refunds)
  }

  /** What the page shows above the table: the summary of the filtered rows, not of all the data. */
  function PageSummary(data: seq<Transaction>, searchQuery: string, typeFilter: string, statusFilter: string): Summary
  {
    Summarize(FilteredData(data, searchQuery, typeFilter, statusFilter))
  }

  /** Income is the Rent total plus the Deposit total. */
  lemma IncomeIsRentPlusDeposit(rows: seq<Transaction>)
    ensures Summarize(rows).income
         == Sum(Filter(rows, KindIs("Rent")), Amount) + Sum(Filter(rows, KindIs("Deposit")), Amount)
  {
    SumFilterSplit(rows, Amount, KindIs("Rent"), KindIs("Deposit"), IsIncome);
  }

  /**
   * Adding a transaction the filters reject leaves the summary as it was:
   * only the listed rows count.
   */
  lemma RejectedRowDoesNotCount(data: seq<Transaction>, t: Transaction, searchQuery: string, typeFilter: string, statusFilter: string)
    requires !Listed(t, searchQuery, typeFilter, statusFilter)
    ensures PageSummary(data + [t], searchQuery, typeFilter, statusFilter)
         == PageSummary(data, searchQuery, typeFilter, statusFilter)
  {
    var keep := ListedMatcher(searchQuery, typeFilter, statusFilter);
    FilteredDataIsListed(data + [t], searchQuery, typeFilter, statusFilter);
    FilteredDataIsListed(data, searchQuery, typeFilter, statusFilter);
    FilterAppend(data, [t], keep);
    assert Filter([t], keep) == [];
    assert Filter(data, keep) + [] == Filter(data, keep);
  }

  /** A transaction of any other type (a Payout, say) moves none of the three figures. */
  lemma OtherTypesDoNotCount(rows: seq<Transaction>, t: Transaction)
    requires t.kind != "Rent" && t.kind != "Deposit" && t.kind != "Expense" && t.kind != "Refund"
    ensures Summarize(rows + [t]) == Summarize(rows)
  {
    FilterAppend(rows, [t], IsIncome);
    FilterAppend(rows, [t], KindIs("Expense"));
    FilterAppend(rows, [t], KindIs("Refund"));
    assert Filter([t], IsIncome) == [] && Filter([t], KindIs("Expense")) == [] && Filter([t], KindIs("Refund")) == [];
    assert Filter(rows, IsIncome) + [] == Filter(rows, IsIncome);
    assert Filter(rows, KindIs("Expense")) + [] == Filter(rows, KindIs("Expense"));
    assert Filter(rows, KindIs("Refund")) + [] == Filter(rows, KindIs("Refund"));
  }
}
