/**
 * The persisted table-preference store: page, sort field and sort direction
 * for the API-token and webhook tables, and a page for the event table. Every
 * action overwrites some fields in place; the two header-click actions apply
 * the click-to-sort rule to their own table.
 */
module TableStateStore {

  datatype SortField = Environment | CreatedAt | LastUsedAt | Status | RequestCount | Url | Description

  datatype SortDirection = Asc | Desc

  /** A table's sort column and direction. */
  datatype SortOrder = SortOrder(field: SortField, direction: SortDirection)

  function Reversed(d: SortDirection): (r: SortDirection)
    ensures r != d
  {
    if d == Asc then Desc else Asc
  }

  /**
   * The click-to-sort rule: clicking the current column reverses its
   * direction; clicking another column sorts by it ascending.
   */
  function SortClick(current: SortOrder, clicked: SortField): (r: SortOrder)
    ensures r.field == clicked
    ensures clicked == current.field ==> r.direction != current.direction
    ensures clicked != current.field ==> r.direction == Asc
  {
    if current.field == clicked then SortOrder(clicked, Reversed(current.direction))
    else SortOrder(clicked, Asc)
  }

  /**
   * Two clicks on the same column: on the current column they restore the
   * original order; on another column they leave it sorted descending.
   */
  lemma SortClickTwice(current: SortOrder, clicked: SortField)
    ensures SortClick(SortClick(current, clicked), clicked)
         == if clicked == current.field then current else SortOrder(clicked, Desc)
  {
  }

  /** The seven fields the store persists (the actions are not persisted). */
  datatype PersistedState = PersistedState(
    apiTokenCurrentPage: int,
    apiTokenSortField: SortField,
    apiTokenSortDirection: SortDirection,
    webhookCurrentPage: int,
    webhookSortField: SortField,
    webhookSortDirection: SortDirection,
    eventCurrentPage: int)

  /** The defaults: page 1, newest first for both sortable tables, page 1 for events. */
  const InitialState: PersistedState :=
    PersistedState(1, CreatedAt, Desc, 1, CreatedAt, Desc, 1)

  class TableState {
    var apiTokenCurrentPage: int
    var apiTokenSortField: SortField
    var apiTokenSortDirection: SortDirection
    var webhookCurrentPage: int
    var webhookSortField: SortField
    var webhookSortDirection: SortDirection
    var eventCurrentPage: int

    /** The `partialize` projection: exactly the seven state fields with their current values. */
    function Partialize(): PersistedState
      reads this
    {
      PersistedState(
        apiTokenCurrentPage, apiTokenSortField, apiTokenSortDirection,
        webhookCurrentPage, webhookSortField, webhookSortDirection,
        eventCurrentPage)
    }

    function ApiTokenSort(): SortOrder
      reads this
    {
      SortOrder(apiTokenSortField, apiTokenSortDirection)
    }

    function WebhookSort(): SortOrder
      reads this
    {
      SortOrder(webhookSortField, webhookSortDirection)
    }

    /** The store as created before anything is restored from storage. */
    constructor ()
      ensures Partialize() == InitialState
    {
      apiTokenCurrentPage := 1;
      apiTokenSortField := CreatedAt;
      apiTokenSortDirection := Desc;
      webhookCurrentPage := 1;
      webhookSortField := CreatedAt;
      webhookSortDirection := Desc;
      eventCurrentPage := 1;
    }

    /** Loading a persisted record merges all seven fields back, so restoring what Partialize saved is exact. */
    method Restore(saved: PersistedState)
      modifies this
      ensures Partialize() == saved
    {
      apiTokenCurrentPage := saved.apiTokenCurrentPage;
      apiTokenSortField := saved.apiTokenSortField;
      apiTokenSortDirection := saved.apiTokenSortDirection;
      webhookCurrentPage := saved.webhookCurrentPage;
      webhookSortField := saved.webhookSortField;
      webhookSortDirection := saved.webhookSortDirection;
      eventCurrentPage := saved.eventCurrentPage;
    }

    // ------------------------------------------------ API-token table

    method SetApiTokenCurrentPage(page: int)
      modifies this
      ensures Partialize() == old(Partialize()).(apiTokenCurrentPage := page)
    {
      apiTokenCurrentPage := page;
    }

    method SetApiTokenSortField(field: SortField)
      modifies this
      ensures Partialize() == old(Partialize()).(apiTokenSortField := field)
    {
      apiTokenSortField := field;
    }

    method SetApiTokenSortDirection(direction: SortDirection)
      modifies this
      ensures Partialize() == old(Partialize()).(apiTokenSortDirection := direction)
    {
      apiTokenSortDirection := direction;
    }

    /** A click on an API-token column header: the sort rule, back to page 1, the other tables untouched. */
    method HandleApiTokenSort(field: SortField)
      modifies this
      ensures ApiTokenSort() == SortClick(old(ApiTokenSort()), field)
      ensures apiTokenCurrentPage == 1
      ensures WebhookSort() == old(WebhookSort()) && webhookCurrentPage == old(webhookCurrentPage)
      ensures eventCurrentPage == old(eventCurrentPage)
    {
      if apiTokenSortField == field {
        apiTokenSortDirection := if apiTokenSortDirection == Asc then Desc else Asc;
        apiTokenCurrentPage := 1;
      } else {
        apiTokenSortField := field;
        apiTokenSortDirection := Asc;
        apiTokenCurrentPage := 1;
      }
    }

    // -------------------------------------------------- webhook table

    method SetWebhookCurrentPage(page: int)
      modifies this
      ensures Partialize() == old(Partialize()).(webhookCurrentPage := page)
    {
      webhookCurrentPage := page;
    }

    method SetWebhookSortField(field: SortField)
      modifies this
      ensures Partialize() == old(Partialize()).(webhookSortField := field)
    {
      webhookSortField := field;
    }

    method SetWebhookSortDirection(direction: SortDirection)
      modifies this
      ensures Partialize() == old(Partialize()).(webhookSortDirection := direction)
    {
      webhookSortDirection := direction;
    }

    /** A click on a webhook column header: the same rule on the webhook fields, the other tables untouched. */
    method HandleWebhookSort(field: SortField)
      modifies this
      ensures WebhookSort() == SortClick(old(WebhookSort()), field)
      ensures webhookCurrentPage == 1
      ensures ApiTokenSort() == old(ApiTokenSort()) && apiTokenCurrentPage == old(apiTokenCurrentPage)
      ensures eventCurrentPage == old(eventCurrentPage)
    {
      if webhookSortField == field {
        webhookSortDirection := if webhookSortDirection == Asc then Desc else Asc;
        webhookCurrentPage := 1;
      } else {
        webhookSortField := field;
        webhookSortDirection := Asc;
        webhookCurrentPage := 1;
      }
    }

    // ---------------------------------------------------- event table

    method SetEventCurrentPage(page: int)
      modifies this
      ensures Partialize() == old(Partialize()).(eventCurrentPage := page)
    {
      eventCurrentPage := page;
    }
  }

  /**
   * The persisted record loses no state: two stores whose `partialize`
   * records agree hold the same pages and sort orders for all three tables.
   */
  lemma PartializeKeepsAllState(a: TableState, b: TableState)
    requires a.Partialize() == b.Partialize()
    ensures a.ApiTokenSort() == b.ApiTokenSort() && a.apiTokenCurrentPage == b.apiTokenCurrentPage
    ensures a.WebhookSort() == b.WebhookSort() && a.webhookCurrentPage == b.webhookCurrentPage
    ensures a.eventCurrentPage == b.eventCurrentPage
  {
  }

  /** Clicking the same API-token header twice restores the original order and leaves the table on page 1. */
  method ApiTokenHeaderTwice(store: TableState, field: SortField)
    requires store.apiTokenSortField == field
    modifies store
    ensures store.ApiTokenSort() == old(store.ApiTokenSort())
    ensures store.apiTokenCurrentPage == 1
  {
    store.HandleApiTokenSort(field);
    store.HandleApiTokenSort(field);
    SortClickTwice(old(store.ApiTokenSort()), field);
  }
}
