/**
 * The events page itself: the `eventId` query parameter that opens the detail
 * panel, the placeholder row chosen for the table body, the refresh button's
 * disabled state, and the page's own state (search text, held page number,
 * query parameters) with the handlers that change it.
 */
module EventsPage {
  import opened Options
  import opened EventSearch
  import opened EventPagination

  // ---------------------------------------------------- query parameters

  /** The query string, one value per key. */
  type SearchParams = map<string, string>

  const EventIdKey: string := "eventId"

  /** `searchParams.get('eventId') || ''`: the id of the open event, "" when none. */
  function OpenEventId(params: SearchParams): string {
    if EventIdKey in params then params[EventIdKey] else ""
  }

  /** Every key other than `eventId` has the same presence and value in both. */
  ghost predicate SameOtherParams(a: SearchParams, b: SearchParams) {
    forall k :: k != EventIdKey ==> (k in a <==> k in b) && (k in a ==> a[k] == b[k])
  }

  /** `setEventIdParam(value)`: sets `eventId` to a non-empty value, deletes it otherwise. */
  function SetEventIdParam(params: SearchParams, value: string): (r: SearchParams)
    ensures OpenEventId(r) == value
    ensures value == "" ==> EventIdKey !in r
    ensures SameOtherParams(params, r)
  {
    if value != "" then params[EventIdKey := value] else params - {EventIdKey}
  }

  /** A click on the row of event `id`: closes the panel if that event is open, opens it otherwise. */
  function ClickRowParams(params: SearchParams, id: string): (r: SearchParams)
    ensures OpenEventId(r) == (if OpenEventId(params) == id then "" else id)
    ensures OpenEventId(params) == id ==> EventIdKey !in r
    ensures SameOtherParams(params, r)
  {
    if OpenEventId(params) == id then SetEventIdParam(params, "") else SetEventIdParam(params, id)
  }

  /** Clicking a row that is not open opens it; clicking it again closes the panel and drops `eventId`. */
  lemma ClickRowTwiceCloses(params: SearchParams, id: string)
    requires OpenEventId(params) != id
    ensures OpenEventId(ClickRowParams(params, id)) == id
    ensures EventIdKey !in ClickRowParams(ClickRowParams(params, id), id)
    ensures SameOtherParams(params, ClickRowParams(ClickRowParams(params, id), id))
  {
  }

  // ----------------------------------------------------------- table body

  /** The table body: one of four placeholder rows, or the page's event rows. */
  datatype TableBody = LoadingRow | LoadErrorRow | NoProjectRow | NoEventsRow | EventRows(rows: seq<Row>)

  /** The body shown, the placeholders being checked in their fixed order. */
  function Body(isLoading: bool, hasError: bool, projectSelected: bool, filtered: seq<Event>, currentPage: int): TableBody {
    if isLoading then LoadingRow
    else if hasError then LoadErrorRow
    else if !projectSelected then NoProjectRow
    else if Paginated(filtered, currentPage) == [] then NoEventsRow
    else EventRows(PageRows(filtered, currentPage))
  }

  /**
   * Loading wins over an error, an error over a missing project, a missing
   * project over an empty list; and with a held page of at least 1 "No events
   * found." appears exactly when the filtered list is empty, a stale page
   * number never hiding events.
   */
  lemma BodyPrecedence(isLoading: bool, hasError: bool, projectSelected: bool, filtered: seq<Event>, currentPage: int)
    requires currentPage >= 1
    ensures var b := Body(isLoading, hasError, projectSelected, filtered, currentPage);
      && (b == LoadingRow <==> isLoading)
      && (b == LoadErrorRow <==> !isLoading && hasError)
      && (b == NoProjectRow <==> !isLoading && !hasError && !projectSelected)
      && (b == NoEventsRow <==> !isLoading && !hasError && projectSelected && filtered == [])
      && (b.EventRows? <==> !isLoading && !hasError && projectSelected && filtered != [])
      && (b.EventRows? ==> b.rows != [] && |b.rows| <= ItemsPerPage)
  {
    PageWindow(filtered, currentPage);
  }

  /**
   * While there is no data the filtered list is empty whatever the query, so
   * once loading has finished without an error, with a project selected, the
   * table shows "No events found.".
   */
  lemma NoDataShowsNoEvents(query: string, currentPage: int)
    requires currentPage >= 1
    ensures Filtered(BaseEvents(None), query) == []
    ensures Body(false, false, true, Filtered(BaseEvents(None), query), currentPage) == NoEventsRow
  {
    FilteredIsSubsequence(BaseEvents(None), query);
    PageWindow([], currentPage);
  }

  /** `isFetching || isLoading || !selectedProject`. */
  predicate RefreshDisabled(isFetching: bool, isLoading: bool, projectSelected: bool) {
    isFetching || isLoading || !projectSelected
  }

  /** Refresh can be clicked only with a project selected and no fetch in flight. */
  lemma RefreshEnabledOnlyWhenIdle(isFetching: bool, isLoading: bool, projectSelected: bool)
    ensures !RefreshDisabled(isFetching, isLoading, projectSelected) <==> projectSelected && !isFetching && !isLoading
  {
  }

  // ----------------------------------------------------------- page state

  /**
   * The page's mutable state: the search box, the page number held in
   * `useState`, and the URL's query parameters. The fetched events are an
   * input of every handler that needs them.
   */
  class EventsView {
    var query: string
    var currentPage: int
    var searchParams: SearchParams

    /** The held page is never below 1: it starts at 1 and every handler sets a page of at least 1. */
    ghost predicate Valid()
      reads this
    {
      currentPage >= 1
    }

    constructor (searchParams: SearchParams)
      ensures Valid()
      ensures query == "" && currentPage == 1 && this.searchParams == searchParams
    {
      query := "";
      currentPage := 1;
      this.searchParams := searchParams;
    }

    /** Typing in the search box; the held page is kept, the clamp absorbing a shorter list. */
    method SetQuery(q: string)
      requires Valid()
      modifies this`query
      ensures Valid()
      ensures query == q
    {
      query := q;
    }

    /**
     * The Previous control. Its handler closes over the list filtered at the
     * last render, `filtered` here, and the page shown from it.
     */
    method ClickPrevious(filtered: seq<Event>)
      requires Valid()
      modifies this`currentPage
      ensures Valid()
      ensures currentPage == PreviousTarget(ShownPage(filtered, old(currentPage))).GetOr(old(currentPage))
      ensures currentPage != old(currentPage) ==> 1 <= currentPage < TotalPages(|filtered|)
    {
      ControlsStayInRange(filtered, currentPage);
      var target := PreviousTarget(ShownPage(filtered, currentPage));
      if target.Some? {
        currentPage := target.value;
      }
    }

    /** The Next control, over the list filtered at the last render. */
    method ClickNext(filtered: seq<Event>)
      requires Valid()
      modifies this`currentPage
      ensures Valid()
      ensures currentPage == NextTarget(ShownPage(filtered, old(currentPage)), TotalPages(|filtered|)).GetOr(old(currentPage))
      ensures currentPage != old(currentPage) ==> 1 < currentPage <= TotalPages(|filtered|)
    {
      ControlsStayInRange(filtered, currentPage);
      var target := NextTarget(ShownPage(filtered, currentPage), TotalPages(|filtered|));
      if target.Some? {
        currentPage := target.value;
      }
    }

    /** The numbered link at position `k` of the pager, which sets page k + 1. */
    method ClickPageLink(filtered: seq<Event>, k: nat)
      requires Valid()
      requires k < TotalPages(|filtered|)
      modifies this`currentPage
      ensures Valid()
      ensures currentPage == k + 1 && currentPage <= TotalPages(|filtered|)
    {
      var links := PageLinks(TotalPages(|filtered|));
      currentPage := links[k];
    }

    /** A click on the row of event `id`. */
    method ClickRow(id: string)
      requires Valid()
      modifies this`searchParams
      ensures Valid()
      ensures searchParams == ClickRowParams(old(searchParams), id)
    {
      if OpenEventId(searchParams) == id {
        searchParams := SetEventIdParam(searchParams, "");
      } else {
        searchParams := SetEventIdParam(searchParams, id);
      }
    }

    /** The detail panel reporting that it closed. */
    method CloseDetails()
      requires Valid()
      modifies this`searchParams
      ensures Valid()
      ensures searchParams == SetEventIdParam(old(searchParams), "")
    {
      searchParams := SetEventIdParam(searchParams, "");
    }
  }
}
