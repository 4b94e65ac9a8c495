/**
 * Client-side pagination of the filtered events: 50 per page, at least one
 * page, the held page clamped from above, the visible rows a slice of the
 * filtered list numbered from 1, and the Previous / numbered / Next controls.
 */
module EventPagination {
  import opened Options
  import opened JsBuiltins
  import opened EventSearch

  const ItemsPerPage: nat := 50

  /** `Math.max(1, Math.ceil(count / itemsPerPage))`. */
  function TotalPages(count: nat): (r: int)
    ensures r >= 1
    ensures count <= r * ItemsPerPage
    ensures r == 1 || (r - 1) * ItemsPerPage < count
  {
    var pages := (count + ItemsPerPage - 1) / ItemsPerPage;
    if pages < 1 then 1 else pages
  }

  /** `Math.min(currentPage, totalPages)`: the page actually shown. */
  function SafePage(currentPage: int, totalPages: int): (r: int)
    ensures r <= totalPages && r <= currentPage
    ensures r == currentPage || r == totalPages
  {
    if currentPage < totalPages then currentPage else totalPages
  }

  /** `(safePage - 1) * itemsPerPage`: the filtered index of the first row shown. */
  function StartIndex(safePage: int): int {
    (safePage - 1) * ItemsPerPage
  }

  function EndIndex(safePage: int): int {
    StartIndex(safePage) + ItemsPerPage
  }

  /** The page shown for a held page number and a filtered list. */
  function ShownPage(filtered: seq<Event>, currentPage: int): int {
    SafePage(currentPage, TotalPages(|filtered|))
  }

  /** `filtered.slice(startIndex, endIndex)`: the events on the page shown. */
  function Paginated(filtered: seq<Event>, currentPage: int): (r: seq<Event>)
    ensures |r| <= ItemsPerPage
    ensures exists i :: OccursAt(r, filtered, i)
  {
    var safe := ShownPage(filtered, currentPage);
    Slice(filtered, StartIndex(safe), EndIndex(safe))
  }

  /**
   * For a held page of at least 1 the page shown is within [1, totalPages],
   * its rows are exactly the filtered events from startIndex up to at most 50
   * of them, and the page is empty only when the filtered list is.
   */
  lemma PageWindow(filtered: seq<Event>, currentPage: int)
    requires currentPage >= 1
    ensures var safe := ShownPage(filtered, currentPage);
      && 1 <= safe <= TotalPages(|filtered|)
      && 0 <= StartIndex(safe) <= |filtered|
      && Paginated(filtered, currentPage)
         == filtered[StartIndex(safe)..if EndIndex(safe) < |filtered| then EndIndex(safe) else |filtered|]
      && (Paginated(filtered, currentPage) == [] <==> filtered == [])
  {
    var n := |filtered|;
    var total := TotalPages(n);
    var safe := ShownPage(filtered, currentPage);
    assert StartIndex(safe) <= n by {
      if total > 1 {
        assert StartIndex(safe) <= (total - 1) * ItemsPerPage;
      }
    }
    assert n > 0 ==> StartIndex(safe) < n by {
      if n > 0 && total > 1 {
        assert StartIndex(safe) <= (total - 1) * ItemsPerPage;
      }
    }
  }

  /** Every filtered event is shown on exactly one predictable page: index i is row i % 50 of page i / 50 + 1. */
  lemma EveryEventHasAPage(filtered: seq<Event>, i: int)
    requires 0 <= i < |filtered|
    ensures var page := i / ItemsPerPage + 1;
      && page <= TotalPages(|filtered|)
      && i % ItemsPerPage < |Paginated(filtered, page)|
      && Paginated(filtered, page)[i % ItemsPerPage] == filtered[i]
  {
    var page := i / ItemsPerPage + 1;
    var total := TotalPages(|filtered|);
    assert page <= total by {
      assert (page - 1) * ItemsPerPage <= i < |filtered| <= total * ItemsPerPage;
    }
    PageWindow(filtered, page);
    assert StartIndex(page) + i % ItemsPerPage == i;
  }

  /** 120 events with no filter: three pages, the first showing events 1-50 and the third events 101-120. */
  lemma HundredTwentyEvents(events: seq<Event>)
    requires |events| == 120
    ensures TotalPages(|events|) == 3
    ensures Paginated(events, 1) == events[0..50]
    ensures Paginated(events, 3) == events[100..120]
    ensures Paginated(events, 7) == events[100..120]
  {
    PageWindow(events, 1);
    PageWindow(events, 3);
    PageWindow(events, 7);
  }

  // ---------------------------------------------------------------- rows

  /** A table row: its displayed number and its event. */
  datatype Row = Row(number: int, event: Event)

  /** `paginated.map((e, idx) => ...)`, row idx numbered `startIndex + idx + 1`. */
  function Rows(paginated: seq<Event>, startIndex: int): seq<Row> {
    seq(|paginated|, idx requires 0 <= idx < |paginated| => Row(startIndex + idx + 1, paginated[idx]))
  }

  /** The rows of the page shown. */
  function PageRows(filtered: seq<Event>, currentPage: int): seq<Row> {
    Rows(Paginated(filtered, currentPage), StartIndex(ShownPage(filtered, currentPage)))
  }

  /** Each row's number is the 1-based position of its event in the filtered list, and numbers run consecutively. */
  lemma RowNumbersArePositions(filtered: seq<Event>, currentPage: int)
    requires currentPage >= 1
    ensures var rows := PageRows(filtered, currentPage);
      forall k :: 0 <= k < |rows| ==>
        && 1 <= rows[k].number <= |filtered|
        && rows[k].event == filtered[rows[k].number - 1]
        && (k > 0 ==> rows[k].number == rows[k - 1].number + 1)
  {
    PageWindow(filtered, currentPage);
  }

  /** "Showing a–b of n". */
  datatype ShowingRange = ShowingRange(first: int, last: int, total: nat)

  function Showing(filtered: seq<Event>, currentPage: int): ShowingRange {
    var safe := ShownPage(filtered, currentPage);
    var end := EndIndex(safe);
    ShowingRange(StartIndex(safe) + 1, if end < |filtered| then end else |filtered|, |filtered|)
  }

  /** The "Showing a–b of n" caption names exactly the first and last row numbers of a non-empty page. */
  lemma ShowingMatchesRows(filtered: seq<Event>, currentPage: int)
    requires currentPage >= 1 && filtered != []
    ensures var rows := PageRows(filtered, currentPage);
      var s := Showing(filtered, currentPage);
      && rows != []
      && s.first == rows[0].number
      && s.last == rows[|rows| - 1].number
      && s.last - s.first + 1 == |rows|
      && s.total == |filtered|
  {
    PageWindow(filtered, currentPage);
  }

  // ------------------------------------------------------------ controls

  /** Previous: `if (safePage > 1) setCurrentPage(safePage - 1)`; None when the click does nothing. */
  function PreviousTarget(safePage: int): Option<int> {
    if safePage > 1 then Some(safePage - 1) else None
  }

  /** Next: `if (safePage < totalPages) setCurrentPage(safePage + 1)`. */
  function NextTarget(safePage: int, totalPages: int): Option<int> {
    if safePage < totalPages then Some(safePage + 1) else None
  }

  /** `Array.from({ length: totalPages }, (_, i) => i + 1)`: the numbered links. */
  function PageLinks(totalPages: int): seq<int>
    requires totalPages >= 0
  {
    seq(totalPages, i => i + 1)
  }

  /** The pager is rendered only when there is more than one page. */
  predicate PagerVisible(totalPages: int) {
    totalPages > 1
  }

  /**
   * Every page a control sets lies in [1, totalPages]: Previous moves back one
   * only from past page 1, Next forward one only before the last page, and
   * the links are 1..totalPages in order.
   */
  lemma ControlsStayInRange(filtered: seq<Event>, currentPage: int)
    requires currentPage >= 1
    ensures var total := TotalPages(|filtered|);
      var safe := ShownPage(filtered, currentPage);
      var links := PageLinks(total);
      && (PreviousTarget(safe).Some? <==> safe > 1)
      && (PreviousTarget(safe).Some? ==> PreviousTarget(safe).value == safe - 1 && 1 <= PreviousTarget(safe).value)
      && (NextTarget(safe, total).Some? <==> safe < total)
      && (NextTarget(safe, total).Some? ==> NextTarget(safe, total).value == safe + 1 <= total)
      && |links| == total
      && (forall k :: 0 <= k < |links| ==> links[k] == k + 1)
      && (forall p :: p in links <==> 1 <= p <= total)
  {
    PageWindow(filtered, currentPage);
    var links := PageLinks(TotalPages(|filtered|));
    forall p | 1 <= p <= TotalPages(|filtered|) ensures p in links {
      assert links[p - 1] == p;
    }
  }
}
