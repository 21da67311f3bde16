/**
 * The admin data table: client-side pagination over the rows it is given
 * (`pageSize` rows per page, pages numbered from 1), the "Showing X to Y
 * of N results" label, the Previous/Next controls, and the sort-header
 * state, which is reported to the parent but never reorders rows here.
 */
module DataTable {
  import opened Common

  const DefaultPageSize: nat := 10

  datatype SortDirection = Asc | Desc

  function Min(a: int, b: int): int
  {
    if a <= b then a else b
  }

  function Max(a: int, b: int): int
  {
    if a >= b then a else b
  }

  /** `Math.ceil(len / pageSize)`. */
  function TotalPages(len: nat, pageSize: nat): (t: nat)
    requires pageSize > 0
    ensures t * pageSize >= len
    ensures len > 0 ==> (t - 1) * pageSize < len
    ensures t == 0 <==> len == 0
  {
    (len + pageSize - 1) / pageSize
  }

  /** The first row index of a page. */
  function PageStart(page: int, pageSize: nat): (start: int)
    ensures page >= 1 ==> start >= 0
  {
    (page - 1) * pageSize
  }

  /**
   * `data.slice(start, start + pageSize)` with `start = (page - 1) * pageSize`:
   * at most `pageSize` consecutive rows in their original order, none past
   * the end.
   */
  function PageRows<T>(data: seq<T>, page: int, pageSize: nat): (rows: seq<T>)
    requires page >= 1 && pageSize > 0
    ensures |rows| <= pageSize
    ensures forall i :: 0 <= i < |rows| ==>
      PageStart(page, pageSize) + i < |data| && rows[i] == data[PageStart(page, pageSize) + i]
    ensures PageStart(page, pageSize) < |data| ==> |rows| == Min(pageSize, |data| - PageStart(page, pageSize))
    ensures PageStart(page, pageSize) >= |data| ==> rows == []
  {
    var start := PageStart(page, pageSize);
    if start >= |data| then [] else data[start..Min(start + pageSize, |data|)]
  }

  /** Row `i` is shown on page `i / pageSize + 1`, at position `i % pageSize`, and that page exists. */
  lemma RowOnItsPage<T>(data: seq<T>, pageSize: nat, i: int)
    requires pageSize > 0 && 0 <= i < |data|
    ensures 1 <= i / pageSize + 1 <= TotalPages(|data|, pageSize)
    ensures var rows := PageRows(data, i / pageSize + 1, pageSize);
      i % pageSize < |rows| && rows[i % pageSize] == data[i]
  {
    var q, r := i / pageSize, i % pageSize;
    assert i == q * pageSize + r;
    assert PageStart(q + 1, pageSize) == q * pageSize;
    var t := TotalPages(|data|, pageSize);
    if q + 1 > t {
      MulMonotone(t, q, pageSize);
    }
  }

  lemma MulMonotone(a: int, b: int, c: nat)
    requires a <= b
    ensures a * c <= b * c
  {
    assert b * c - a * c == (b - a) * c;
  }

  /** Pages 1 to `n`, one after the other. */
  function FirstPages<T>(data: seq<T>, pageSize: nat, n: nat): seq<T>
    requires pageSize > 0
  {
    if n == 0 then [] else FirstPages(data, pageSize, n - 1) + PageRows(data, n, pageSize)
  }

  lemma {:induction false} FirstPagesArePrefix<T>(data: seq<T>, pageSize: nat, n: nat)
    requires pageSize > 0
    ensures FirstPages(data, pageSize, n) == data[..Min(n * pageSize, |data|)]
  {
    if n > 0 {
      FirstPagesArePrefix(data, pageSize, n - 1);
      assert (n - 1) * pageSize + pageSize == n * pageSize;
      var start := PageStart(n, pageSize);
      if start < |data| {
        assert data[..Min(n * pageSize, |data|)] == data[..start] + data[start..Min(n * pageSize, |data|)];
      } else {
        assert n * pageSize >= start;
      }
    }
  }

  /** The pages 1 to `totalPages`, in order, are exactly the data: no row is skipped or repeated. */
  lemma PagesCoverData<T>(data: seq<T>, pageSize: nat)
    requires pageSize > 0
    ensures FirstPages(data, pageSize, TotalPages(|data|, pageSize)) == data
  {
    FirstPagesArePrefix(data, pageSize, TotalPages(|data|, pageSize));
  }

  /** "Showing `first` to `last` of N results". */
  datatype Range = Range(first: int, last: int)

  function RangeLabel(page: int, pageSize: nat, len: nat): Range
  {
    Range((page - 1) * pageSize + 1, Min(page * pageSize, len))
  }

  /** On a page that has rows, the label names the 1-based positions of exactly the rows shown. */
  lemma RangeLabelDescribesRows<T>(data: seq<T>, page: int, pageSize: nat)
    requires page >= 1 && pageSize > 0
    requires PageStart(page, pageSize) < |data|
    ensures var r := RangeLabel(page, pageSize, |data|);
      && r.first == PageStart(page, pageSize) + 1
      && r.last == PageStart(page, pageSize) + |PageRows(data, page, pageSize)|
      && r.first <= r.last
  {
    assert page * pageSize == PageStart(page, pageSize) + pageSize;
  }

  /** The pagination bar: the label, the page indicator and whether each button is disabled. */
  datatype Pager = Pager(range: Range, total: nat, page: int, totalPages: nat,
                         previousDisabled: bool, nextDisabled: bool)

  /** What the table renders. */
  datatype View<T> = LoadingView | EmptyView | TableView(rows: seq<T>, pager: Option<Pager>)

  function Render<T>(loading: bool, data: seq<T>, page: int, pageSize: nat): (v: View<T>)
    requires page >= 1 && pageSize > 0
  {
    if loading then LoadingView
    else if |data| == 0 then EmptyView
    else
      var t := TotalPages(|data|, pageSize);
      TableView(PageRows(data, page, pageSize),
                if t > 1 then Some(Pager(RangeLabel(page, pageSize, |data|), |data|, page, t, page == 1, page == t))
                else None)
  }

  /**
   * Loading wins over everything, empty data shows the empty state, and
   * the pagination bar appears exactly when there is more than one page.
   */
  lemma RenderCases<T>(loading: bool, data: seq<T>, page: int, pageSize: nat)
    requires page >= 1 && pageSize > 0
    ensures Render(loading, data, page, pageSize).LoadingView? <==> loading
    ensures Render(loading, data, page, pageSize).EmptyView? <==> !loading && data == []
    ensures Render(loading, data, page, pageSize).TableView? ==>
      && Render(loading, data, page, pageSize).rows == PageRows(data, page, pageSize)
      && (Render(loading, data, page, pageSize).pager.Some? <==> |data| > pageSize)
  {
    if !loading && |data| > 0 {
      var t := TotalPages(|data|, pageSize);
      if t <= 1 {
        assert |data| <= t * pageSize <= pageSize;
      } else {
        assert pageSize <= (t - 1) * pageSize < |data|;
      }
    }
  }

  /** The header click: the direction becomes descending only when the same key was ascending. */
  function NextDirection(sortKey: Option<string>, sortDirection: SortDirection, key: string): (d: SortDirection)
    ensures d == Desc <==> sortKey == Some(key) && sortDirection == Asc
  {
    if sortKey == Some(key) && sortDirection == Asc then Desc else Asc
  }

  /** Clicking the same header repeatedly alternates the direction; a new header starts ascending. */
  lemma SortClicksAlternate(sortKey: Option<string>, sortDirection: SortDirection, key: string)
    ensures NextDirection(Some(key), NextDirection(sortKey, sortDirection, key), key)
            != NextDirection(sortKey, sortDirection, key)
    ensures sortKey != Some(key) ==> NextDirection(sortKey, sortDirection, key) == Asc
  {
  }

  class DataTable<T> {
    /** The rows the parent passes in. */
    var data: seq<T>
    var loading: bool
    const pageSize: nat
    var currentPage: int
    var sortKey: Option<string>
    var sortDirection: SortDirection

    ghost predicate Valid()
      reads this
    {
      pageSize > 0 && currentPage >= 1
    }

    /** `pageSize` is optional and defaults to 10. */
    constructor (data: seq<T>, pageSize: Option<nat>, loading: bool)
      requires pageSize.GetOr(DefaultPageSize) > 0
      ensures Valid()
      ensures this.data == data && this.pageSize == pageSize.GetOr(DefaultPageSize) && this.loading == loading
      ensures currentPage == 1 && sortKey == None && sortDirection == Asc
    {
      this.data := data;
      this.pageSize := pageSize.GetOr(DefaultPageSize);
      this.loading := loading;
      currentPage := 1;
      sortKey := None;
      sortDirection := Asc;
    }

    function Pages(): nat
      reads this
      requires Valid()
    {
      TotalPages(|data|, pageSize)
    }

    function Rows(): seq<T>
      reads this
      requires Valid()
    {
      PageRows(data, currentPage, pageSize)
    }

    function View(): View<T>
      reads this
      requires Valid()
    {
      Render(loading, data, currentPage, pageSize)
    }

    /** The parent re-renders with new rows; the current page is kept as it is. */
    method SetProps(newData: seq<T>, newLoading: bool)
      requires Valid()
      modifies this`data, this`loading
      ensures Valid()
      ensures data == newData && loading == newLoading
    {
      data := newData;
      loading := newLoading;
    }

    /** `handleSort(key)`; returns the arguments `onSortChange` is called with. */
    method HandleSort(key: string) returns (notifiedKey: string, notifiedDirection: SortDirection)
      requires Valid()
      modifies this`sortKey, this`sortDirection
      ensures Valid()
      ensures sortKey == Some(key)
      ensures sortDirection == NextDirection(old(sortKey), old(sortDirection), key)
      ensures notifiedKey == key && notifiedDirection == sortDirection
      ensures Rows() == old(Rows()) && View() == old(View())
    {
      var newDirection := if sortKey == Some(key) && sortDirection == Asc then Desc else Asc;
      sortKey := Some(key);
      sortDirection := newDirection;
      notifiedKey, notifiedDirection := key, newDirection;
    }

    /** Whether the Previous button is on screen and enabled. */
    predicate PreviousEnabled()
      reads this
      requires Valid()
    {
      View().TableView? && View().pager.Some? && !View().pager.value.previousDisabled
    }

    predicate NextEnabled()
      reads this
      requires Valid()
    {
      View().TableView? && View().pager.Some? && !View().pager.value.nextDisabled
    }

    /** A click on Previous: `setCurrentPage(p => Math.max(1, p - 1))` when the button can be clicked. */
    method ClickPrevious()
      requires Valid()
      modifies this`currentPage
      ensures Valid()
      ensures currentPage == if old(PreviousEnabled()) then Max(1, old(currentPage) - 1) else old(currentPage)
      ensures currentPage <= old(currentPage)
    {
      if PreviousEnabled() {
        currentPage := Max(1, currentPage - 1);
      }
    }

    /** A click on Next: `setCurrentPage(p => Math.min(totalPages, p + 1))` when the button can be clicked. */
    method ClickNext()
      requires Valid()
      modifies this`currentPage
      ensures Valid()
      ensures currentPage == if old(NextEnabled()) then Min(Pages(), old(currentPage) + 1) else old(currentPage)
      ensures old(currentPage) <= Pages() ==> currentPage <= Pages()
    {
      if NextEnabled() {
        currentPage := Min(Pages(), currentPage + 1);
      }
    }
  }
}
