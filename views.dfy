/**
 * The three paged booking tables (status, summary and payment tabs): which
 * rows each shows, and the page cursor and search query each keeps between
 * redraws (statusCurrentPage/statusSearchQuery and their summary and payment
 * counterparts).
 */
module Views {
  import opened Wrappers
  import opened Text
  import opened Bookings
  import opened Search
  import opened Ordering
  import opened Pagination

  datatype Tab = StatusTab | SummaryTab | PaymentTab

  /** The payment tab lists only bookings awaiting payment or awaiting verification. */
  predicate AwaitingPayment(b: Booking)
  {
    b.paymentStatus == Pending || b.paymentStatus == Verifying
  }

  /** The rows a tab lists, in order, before paging. */
  function TabRows(tab: Tab, all: seq<Booking>, query: string): seq<Booking>
  {
    match tab
    case PaymentTab =>
      var open := Select(all, AwaitingPayment);
      SortBy(ByPayment, if query != [] then FilterByQuery(open, query) else open)
    case _ =>
      SortBy(ByStatus, if query != [] then FilterByQuery(all, query) else all)
  }

  /** Whether a booking belongs in a tab's list under a query. */
  predicate Listed(tab: Tab, b: Booking, query: string)
  {
    MatchSearchQuery(b, query) && (tab == PaymentTab ==> AwaitingPayment(b))
  }

  function OrderOf(tab: Tab): Order
  {
    if tab == PaymentTab then ByPayment else ByStatus
  }

  /**
   * A tab lists every booking that matches the query (and, on the payment tab,
   * still awaits payment or verification), each as often as it is stored,
   * nothing else, in the tab's order.
   */
  lemma TabRowsContents(tab: Tab, all: seq<Booking>, query: string)
    ensures forall b :: multiset(TabRows(tab, all, query))[b]
                        == if Listed(tab, b, query) then multiset(all)[b] else 0
    ensures SortedBy(OrderOf(tab), TabRows(tab, all, query))
  {
    if tab == PaymentTab {
      var open := Select(all, AwaitingPayment);
      SelectCounts(all, AwaitingPayment);
      var f := if query != [] then FilterByQuery(open, query) else open;
      if query != [] {
        FilterByQueryKeepsMatches(open, query);
      }
      SortByCorrect(ByPayment, f);
    } else {
      var f := if query != [] then FilterByQuery(all, query) else all;
      if query != [] {
        FilterByQueryKeepsMatches(all, query);
      }
      SortByCorrect(ByStatus, f);
    }
  }

  /**
   * The cursor after a redraw: a page past the last becomes the last (1 for an
   * empty list), a page before the first becomes 1, any other stays.
   */
  function ClampPage(page: int, n: nat): (r: int)
    ensures 1 <= r <= LastPage(n)
    ensures 1 <= page <= LastPage(n) ==> r == page
    ensures page > LastPage(n) ==> r == LastPage(n)
    ensures page < 1 ==> r == 1
  {
    var total := PageCount(n);
    var p := if page > total then (if total == 0 then 1 else total) else page;
    if p < 1 then 1 else p
  }

  /** Clamping an already clamped cursor changes nothing. */
  lemma ClampPageIdempotent(page: int, n: nat)
    ensures ClampPage(ClampPage(page, n), n) == ClampPage(page, n)
  {
  }

  /** The page label ("page p of t") and the state of the two page buttons. */
  datatype Nav = Nav(page: int, of: int, prevDisabled: bool, nextDisabled: bool)

  /** One tab's cursor and query, kept between redraws. */
  class TabView {
    const tab: Tab
    var page: int
    var query: string

    constructor(tab: Tab)
      ensures this.tab == tab && page == 1 && query == []
    {
      this.tab := tab;
      page := 1;
      query := [];
    }

    /**
     * updatePublicStatusTable / updateSummaryTab / updatePaymentTable: clamp
     * the cursor, then return the rows of the current page, the page label and
     * button states written into the pager, and whether the pager is visible.
     * Every tab shows its pager only when the list has more than one page's
     * worth of rows; the status and summary tabs write the label and buttons
     * on every redraw, the payment tab only when the pager is shown.
     */
    method Refresh(all: seq<Booking>) returns (rows: seq<Booking>, nav: Option<Nav>, shown: bool)
      modifies this`page
      ensures var list := TabRows(tab, all, query);
        && page == ClampPage(old(page), |list|)
        && rows == PageOf(list, page)
        && (|list| > 0 ==> rows != [])
        && (shown <==> |list| > ItemsPerPage)
        && (nav.Some? <==> tab != PaymentTab || shown)
        && (nav.Some? ==> nav.value == Nav(page, LastPage(|list|), page == 1, page >= PageCount(|list|)))
    {
      var list := TabRows(tab, all, query);
      var totalPages := PageCount(|list|);
      if page > totalPages {
        page := if totalPages == 0 then 1 else totalPages;
      }
      if page < 1 {
        page := 1;
      }
      rows := PageOf(list, page);
      ClampedPageNotEmpty(list, page);
      shown := |list| > ItemsPerPage;
      if tab != PaymentTab || shown {
        nav := Some(Nav(page, LastPage(|list|), page == 1, page >= totalPages));
      } else {
        nav := None;
      }
    }

    /**
     * searchStatusTable / searchSummaryTable store the query lowered,
     * filterPaymentTable as typed; all three go back to page 1 and redraw.
     */
    method Search(q: string, all: seq<Booking>) returns (rows: seq<Booking>, nav: Option<Nav>, shown: bool)
      modifies this
      ensures query == (if tab == PaymentTab then q else Lower(q))
      ensures page == 1
      ensures rows == PageOf(TabRows(tab, all, query), 1)
      ensures shown <==> |TabRows(tab, all, query)| > ItemsPerPage
      ensures nav.Some? <==> tab != PaymentTab || shown
    {
      query := if tab == PaymentTab then q else Lower(q);
      page := 1;
      rows, nav, shown := Refresh(all);
    }

    /** changeStatusPage / changeSummaryPage / changePaymentPage: step the cursor, then redraw. */
    method ChangePage(direction: int, all: seq<Booking>) returns (rows: seq<Booking>, nav: Option<Nav>, shown: bool)
      modifies this`page
      ensures var list := TabRows(tab, all, query);
        && page == ClampPage(old(page) + direction, |list|)
        && rows == PageOf(list, page)
        && (|list| > 0 ==> rows != [])
        && (shown <==> |list| > ItemsPerPage)
        && (nav.Some? ==> nav.value.prevDisabled == (page == 1) && nav.value.nextDisabled == (page >= PageCount(|list|)))
    {
      page := page + direction;
      rows, nav, shown := Refresh(all);
    }
  }

  /** Lowering the stored query does not change which bookings a tab lists. */
  lemma StoredQueryListsSame(tab: Tab, b: Booking, q: string)
    ensures Listed(tab, b, Lower(q)) == Listed(tab, b, q)
  {
    MatchIgnoresQueryCase(b, q);
  }

  /** From a page before the last, "next" shows the following page; from a page after the first, "previous" the preceding one. */
  lemma StepWithinRange(page: int, n: nat)
    requires 1 <= page <= LastPage(n)
    ensures page < LastPage(n) ==> ClampPage(page + 1, n) == page + 1
    ensures page > 1 ==> ClampPage(page - 1, n) == page - 1
    ensures page == LastPage(n) ==> ClampPage(page + 1, n) == page
    ensures page == 1 ==> ClampPage(page - 1, n) == 1
  {
  }
}
