# Events dashboard, table preferences and wallet verification — a Dafny model

This project models three parts of a payments dashboard front end:

- **The events page** (`components/dashboard/event/page.tsx`).
  - Searching the fetched events. The query is trimmed and lower-cased. An event is kept when the lower-cased text `"<id> <sessionId> <type label>"` includes the query. A blank query keeps everything.
  - Client-side pagination: 50 rows per page, at least one page, and the held page number clamped from above.
  - The numbered rows and the "Showing a–b of n" caption.
  - The Previous, numbered and Next pager controls.
  - The `eventId` query parameter, which a row click toggles and which the detail panel clears when it closes.
  - The placeholder row shown instead of events, and the refresh button's disabled state.
- **The persisted table-preference store** (`store/tableStateStore.ts`).
  - Pages and sort orders for the API-token and webhook tables, and a page for the event table.
  - The click-to-sort header actions.
  - The `partialize` projection that chooses what is persisted.
- **The wallet-verification hook** (`hooks/useVerifyWallet.ts`).
  - `mutate` checks the connection and the signing capability, requests a nonce, has the wallet sign the nonce message's UTF-8 bytes, and submits the signature for confirmation.
  - The hook's `isLoading`, `error` and `isSuccess` flags.

Files:

- `options.dfy`: an `Option` type.
- `js_builtins.dfy`: the JavaScript built-ins the core relies on.
  - `String.prototype.trim` with the exact ECMAScript white-space set.
  - `toLowerCase` and `includes`.
  - `Array.prototype.slice`, including negative indices.
  - `TextEncoder.encode`, with a UTF-8 decoder proved to invert it.
- `event_search.dfy`, `event_pagination.dfy` and `events_page.dfy`: the events page, in three layers.
  - The page's state is the class `EventsView`: the search text, the held page and the query parameters.
  - Its handlers are methods.
- `table_state_store.dfy`: the store as the class `TableState`, whose actions overwrite its fields.
- `verify_wallet.dfy`: the hook.
  - `Flow` is a specification function describing one run of `mutate`.
  - The class `VerifyWalletHook` holds the two request states.
  - Its method `Mutate` runs the steps one by one and is proved to do what `Flow` says.

## Behaviour worth noting

- **Page clamping.** `page.tsx:72` clamps the held page only from above, with `Math.min`. The shown page stays at 1 or more only because the held page starts at 1 and every handler sets a page of at least 1. `EventsView.Valid` states that invariant, and `PageWindow` derives the range `[1, totalPages]` from it.
- **Confirmation result.** `mutate` does not look at the confirmation's `success` flag (`useVerifyWallet.ts:41-45`). Any reply that is not an error resolves the run.
- **Empty public key.** An empty public key is treated as missing, as `!publicKey` does (`useVerifyWallet.ts:22`).

## Model

| member | source | states |
|---|---|---|
| JsBuiltins.TrimStart | components/dashboard/event/page.tsx:61 | the result is the suffix of the input that starts at its first non-white-space character; everything dropped is white space |
| JsBuiltins.TrimEnd | components/dashboard/event/page.tsx:61 | the result is the prefix of the input that ends at its last non-white-space character; everything dropped is white space |
| JsBuiltins.Trim | components/dashboard/event/page.tsx:61 | `trim()` yields the infix of the input with only white space before and after it and no white space at its own ends, so the result is fully determined; it is empty exactly when the input is all white space |
| JsBuiltins.TrimIdempotent | components/dashboard/event/page.tsx:61 | trimming a trimmed string changes nothing |
| JsBuiltins.ToLowerChar | components/dashboard/event/page.tsx:61 | an upper-case ASCII letter becomes the matching lower-case letter; every other character is unchanged |
| JsBuiltins.ToLowerCase | components/dashboard/event/page.tsx:61 | `toLowerCase()` keeps the length and lower-cases each character in place |
| JsBuiltins.ToLowerCaseIdempotent | components/dashboard/event/page.tsx:66 | lower-casing twice equals lower-casing once |
| JsBuiltins.ToLowerCaseConcat | components/dashboard/event/page.tsx:66 | lower-casing the template string lower-cases each of its pieces |
| JsBuiltins.IncludesEmpty | components/dashboard/event/page.tsx:66 | every string includes the empty string |
| JsBuiltins.IncludesInPrefix | components/dashboard/event/page.tsx:66 | what a prefix includes, the whole string includes |
| JsBuiltins.IncludesInSuffix | components/dashboard/event/page.tsx:66 | what a suffix includes, the whole string includes |
| JsBuiltins.Slice | components/dashboard/event/page.tsx:75 | `slice(start, end)` is a contiguous infix of at most `end - start` elements; for an in-range start it is `s[start..min(end, length)]` |
| JsBuiltins.SliceNegativeIndices | components/dashboard/event/page.tsx:75 | negative `slice` indices select what the same indices shifted by the length select, and a start at or past the end selects nothing |
| JsBuiltins.EncodeScalar | hooks/useVerifyWallet.ts:35 | one character encodes to 1–4 bytes whose lead byte announces the length and whose other bytes are continuation bytes; it is one byte exactly for ASCII |
| JsBuiltins.TextEncode | hooks/useVerifyWallet.ts:35 | the whole encoding is between `|s|` and `4·|s|` bytes long |
| JsBuiltins.DecodeEncodeScalar | hooks/useVerifyWallet.ts:35 | decoding the bytes of one character gives that character back |
| JsBuiltins.DecodeTextEncode | hooks/useVerifyWallet.ts:35 | decoding `TextEncoder().encode(s)` gives `s` back, so the encoding loses nothing |
| JsBuiltins.TextEncodeAscii | hooks/useVerifyWallet.ts:35 | an ASCII message encodes to its own code points, one byte per character |
| EventSearch.NormalizeQuery | components/dashboard/event/page.tsx:61 | the normalized query is the lower-cased window of the typed query that has only white space before and after it; its ends are not white space, it has no upper-case ASCII letter, and it is empty exactly when the typed query is all white space |
| EventSearch.LowerCaseKeepsEnds | components/dashboard/event/page.tsx:61 | lower-casing a trimmed string leaves it trimmed |
| EventSearch.LowerCaseKeepsTrimmable | components/dashboard/event/page.tsx:61 | lower-casing a character never changes whether it is white space |
| EventSearch.TypeLabel | components/dashboard/event/page.tsx:43-45 | computes the label "payment" of the only event type; no contract of its own |
| EventSearch.SearchText | components/dashboard/event/page.tsx:66 | computes `"${id} ${sessionId} ${label}"`; no contract of its own, its use is stated by MatchInIdIgnoringCase and MatchInSessionIdIgnoringCase |
| EventSearch.Matches | components/dashboard/event/page.tsx:66 | the filter predicate: the lower-cased search text includes the normalized query; no contract of its own, stated by KeepMatching and FilteredKeepsExactlyTheMatches |
| EventSearch.Filtered | components/dashboard/event/page.tsx:63-68 | the page's filtered list; no contract of its own, its meaning is stated by FilteredKeepsExactlyTheMatches, FilteredIsSubsequence and QueryCaseIrrelevant |
| EventSearch.KeepMatching | components/dashboard/event/page.tsx:64-67 | an event is in the result exactly when it is in the input and matches; the result is never longer than the input |
| EventSearch.KeepMatchingCounts | components/dashboard/event/page.tsx:64-67 | the filter keeps every copy of a matching event and no copy of any other event (as multisets) |
| EventSearch.FilteredKeepsExactlyTheMatches | components/dashboard/event/page.tsx:63-68 | a blank query leaves the list as fetched; in every case each event occurs in the shown list exactly as often as in the fetched list when it matches, and not at all otherwise |
| EventSearch.KeepMatchingIsSubsequence | components/dashboard/event/page.tsx:64-67 | the filter keeps events in their fetched order |
| EventSearch.SubsequenceOfItself | components/dashboard/event/page.tsx:68 | the unfiltered list is trivially in order |
| EventSearch.FilteredIsSubsequence | components/dashboard/event/page.tsx:63-68 | the filtered list is a subsequence of the fetched list: nothing is reordered or invented |
| EventSearch.TrimStartLowerCase | components/dashboard/event/page.tsx:61 | trimming the start commutes with lower-casing |
| EventSearch.TrimEndLowerCase | components/dashboard/event/page.tsx:61 | trimming the end commutes with lower-casing |
| EventSearch.NormalizeViaLowerCase | components/dashboard/event/page.tsx:61 | trim-then-lower-case equals lower-case-then-trim |
| EventSearch.QueryCaseIrrelevant | components/dashboard/event/page.tsx:61-68 | queries that differ only in letter case filter the list identically |
| EventSearch.MatchInIdIgnoringCase | components/dashboard/event/page.tsx:66 | a query found, ignoring case, in an event's id matches the event |
| EventSearch.MatchInSessionIdIgnoringCase | components/dashboard/event/page.tsx:66 | a query found, ignoring case, in an event's session id matches the event |
| EventSearch.KeptWhenIdContainsQuery | components/dashboard/event/page.tsx:63-68 | every fetched event whose id contains the query, in any case, is shown |
| EventPagination.TotalPages | components/dashboard/event/page.tsx:71 | there is at least one page, the pages hold every event, and a second page exists only when the first cannot hold them all (ceiling of n / 50) |
| EventPagination.SafePage | components/dashboard/event/page.tsx:72 | the shown page is the held page or the last page, whichever is smaller |
| EventPagination.ShownPage | components/dashboard/event/page.tsx:71-72 | the page shown for a held page and a filtered list; no contract of its own, its range is stated by PageWindow |
| EventPagination.StartIndex | components/dashboard/event/page.tsx:73 | computes `(safePage - 1) * 50`; no contract of its own, stated by PageWindow and EveryEventHasAPage |
| EventPagination.EndIndex | components/dashboard/event/page.tsx:74 | computes `startIndex + 50`; no contract of its own, stated by PageWindow |
| EventPagination.Paginated | components/dashboard/event/page.tsx:73-75 | the page's events are a contiguous run of at most 50 filtered events |
| EventPagination.PageWindow | components/dashboard/event/page.tsx:71-75 | with a held page of at least 1: the shown page is in `[1, totalPages]`, its events are exactly `filtered[startIndex .. min(endIndex, n)]`, and the page is empty only when nothing matched |
| EventPagination.EveryEventHasAPage | components/dashboard/event/page.tsx:71-75 | filtered event `i` appears as row `i % 50` of page `i / 50 + 1`, which exists |
| EventPagination.HundredTwentyEvents | components/dashboard/event/page.tsx:71-75 | 120 events give 3 pages: page 1 shows events 1–50, page 3 shows events 101–120, and an out-of-range page 7 shows page 3 |
| EventPagination.Rows | components/dashboard/event/page.tsx:182-194 | numbers row `idx` of the page `startIndex + idx + 1`; no contract of its own, stated by RowNumbersArePositions |
| EventPagination.PageRows | components/dashboard/event/page.tsx:182-194 | the rows of the page shown; no contract of its own, stated by RowNumbersArePositions and BodyPrecedence |
| EventPagination.RowNumbersArePositions | components/dashboard/event/page.tsx:182-194 | each row's number is the 1-based position of its event in the filtered list, and numbers run consecutively |
| EventPagination.Showing | components/dashboard/event/page.tsx:229 | the numbers of the "Showing a–b of n" caption; no contract of its own, stated by ShowingMatchesRows |
| EventPagination.ShowingMatchesRows | components/dashboard/event/page.tsx:229 | "Showing a–b of n" names the first and last row numbers of a non-empty page and the filtered count |
| EventPagination.PagerVisible | components/dashboard/event/page.tsx:226 | the pager is rendered only when there is more than one page; no contract of its own |
| EventPagination.PreviousTarget | components/dashboard/event/page.tsx:238 | the page Previous sets, if any; no contract of its own, stated by ControlsStayInRange and EventsView.ClickPrevious |
| EventPagination.PageLinks | components/dashboard/event/page.tsx:244 | the numbered links; no contract of its own, stated by ControlsStayInRange and EventsView.ClickPageLink |
| EventPagination.NextTarget | components/dashboard/event/page.tsx:265 | the page Next sets, if any; no contract of its own, stated by ControlsStayInRange and EventsView.ClickNext |
| EventPagination.ControlsStayInRange | components/dashboard/event/page.tsx:234-268 | Previous acts exactly when the shown page is past 1, and then targets the shown page minus one; Next acts exactly before the last page, and then targets the shown page plus one; the links are exactly 1..totalPages in order |
| EventsPage.OpenEventId | components/dashboard/event/page.tsx:94 | the id of the open event, "" when `eventId` is absent; no contract of its own, stated by SetEventIdParam and ClickRowParams |
| EventsPage.SetEventIdParam | components/dashboard/event/page.tsx:95-103 | afterwards the open event id is the given value, an empty value removes the key, and every other parameter is unchanged |
| EventsPage.ClickRowParams | components/dashboard/event/page.tsx:186-191 | clicking the open event's row removes `eventId`; clicking any other row opens that event; other parameters are unchanged |
| EventsPage.ClickRowTwiceCloses | components/dashboard/event/page.tsx:186-191 | a second click on the same row closes the panel it opened and removes `eventId`, leaving the rest as it was |
| EventsPage.Body | components/dashboard/event/page.tsx:157-181 | the placeholder row or the event rows, checked in the source's order; no contract of its own, stated by BodyPrecedence |
| EventsPage.BodyPrecedence | components/dashboard/event/page.tsx:157-181 | loading, then error, then no project, then "No events found." exactly when nothing matched; otherwise at most 50 event rows |
| EventsPage.NoDataShowsNoEvents | components/dashboard/event/page.tsx:62 | with no data (`events ?? []`) the filtered list is empty for every query, so a settled page with a project selected shows "No events found." |
| EventsPage.RefreshDisabled | components/dashboard/event/page.tsx:135 | the refresh button's `disabled` condition; no contract of its own, stated by RefreshEnabledOnlyWhenIdle |
| EventsPage.RefreshEnabledOnlyWhenIdle | components/dashboard/event/page.tsx:135 | refresh is enabled iff a project is selected and nothing is loading or fetching |
| EventsPage.EventsView.constructor | components/dashboard/event/page.tsx:51-52 | the page starts with an empty query on page 1 |
| EventsPage.EventsView.SetQuery | components/dashboard/event/page.tsx:126 | typing replaces the query and keeps the held page, which stays at least 1 |
| EventsPage.EventsView.ClickPrevious | components/dashboard/event/page.tsx:236-239 | Previous sets the shown page minus one when the shown page is past 1, otherwise nothing; the new page is in `[1, totalPages)` |
| EventsPage.EventsView.ClickNext | components/dashboard/event/page.tsx:263-266 | Next sets the shown page plus one when it is before the last page, otherwise nothing; the new page is in `(1, totalPages]` |
| EventsPage.EventsView.ClickPageLink | components/dashboard/event/page.tsx:244-251 | the link at position k sets page k + 1, within `[1, totalPages]` |
| EventsPage.EventsView.ClickRow | components/dashboard/event/page.tsx:186-191 | a row click rewrites the query parameters as ClickRowParams describes |
| EventsPage.EventsView.CloseDetails | components/dashboard/event/page.tsx:281-283 | the panel closing removes `eventId` and keeps the other parameters |
| TableStateStore.Reversed | store/tableStateStore.ts:67 | reversing always changes the direction |
| TableStateStore.SortClick | store/tableStateStore.ts:63-77 | clicking sorts by the clicked column; the same column flips direction; a new column starts ascending |
| TableStateStore.SortClickTwice | store/tableStateStore.ts:63-77 | two clicks on the current column restore the original order; two clicks on a new column leave it descending |
| TableStateStore.TableState.Partialize | store/tableStateStore.ts:104-113 | the persisted record: the seven state fields and no action; no contract of its own, stated by Restore and PartializeKeepsAllState |
| TableStateStore.TableState.constructor | store/tableStateStore.ts:39-52 | a new store holds the defaults: page 1 and `createdAt` descending for both tables, page 1 for events |
| TableStateStore.TableState.Restore | store/tableStateStore.ts:102-113 | rehydrating a saved record restores exactly the seven persisted fields |
| TableStateStore.PartializeKeepsAllState | store/tableStateStore.ts:104-113 | two stores with the same persisted record hold the same pages and sort orders for all three tables: the record loses no state |
| TableStateStore.TableState.SetApiTokenCurrentPage | store/tableStateStore.ts:60 | only the API-token page changes |
| TableStateStore.TableState.SetApiTokenSortField | store/tableStateStore.ts:61 | only the API-token sort field changes |
| TableStateStore.TableState.SetApiTokenSortDirection | store/tableStateStore.ts:62 | only the API-token sort direction changes |
| TableStateStore.TableState.HandleApiTokenSort | store/tableStateStore.ts:63-77 | the API-token order follows the click-to-sort rule and its page resets to 1; the webhook and event fields are unchanged |
| TableStateStore.TableState.SetWebhookCurrentPage | store/tableStateStore.ts:80 | only the webhook page changes |
| TableStateStore.TableState.SetWebhookSortField | store/tableStateStore.ts:81 | only the webhook sort field changes |
| TableStateStore.TableState.SetWebhookSortDirection | store/tableStateStore.ts:82 | only the webhook sort direction changes |
| TableStateStore.TableState.HandleWebhookSort | store/tableStateStore.ts:83-97 | the webhook order follows the click-to-sort rule and its page resets to 1; the API-token and event fields are unchanged |
| TableStateStore.TableState.SetEventCurrentPage | store/tableStateStore.ts:100 | only the event page changes |
| TableStateStore.ApiTokenHeaderTwice | store/tableStateStore.ts:63-77 | clicking the current API-token header twice restores its order and leaves the table on page 1 |
| VerifyWallet.HasPublicKey | hooks/useVerifyWallet.ts:22 | `!publicKey` is false: a key is present and not empty; no contract of its own, stated by NotConnectedCallsNothing |
| VerifyWallet.ErrorMessage | hooks/useVerifyWallet.ts:22-38 | the message `mutate` rejects with, using the source's three literal texts and the request's own message otherwise; no contract of its own, stated by SigningFailureStopsTheRun |
| VerifyWallet.Flow | hooks/useVerifyWallet.ts:21-46 | a run makes at most four calls, and a resolved run made its three requests and left the confirmation successful |
| VerifyWallet.NotConnectedCallsNothing | hooks/useVerifyWallet.ts:22-24 | without a connection or a public key the run rejects with "Please connect your wallet first", calls nothing and changes no state |
| VerifyWallet.UnsupportedSigningCallsNothing | hooks/useVerifyWallet.ts:25-27 | a wallet without `signMessage` makes the run reject with the unsupported-signing error before any call |
| VerifyWallet.NonceFailureStopsTheRun | hooks/useVerifyWallet.ts:30 | a failed nonce request is the run's error, and nothing is signed, confirmed or called back |
| VerifyWallet.SigningFailureStopsTheRun | hooks/useVerifyWallet.ts:33-38 | any throw from signing becomes "Message signing was cancelled or failed", and no confirmation is requested |
| VerifyWallet.SignedRunCallsInOrder | hooks/useVerifyWallet.ts:30-45 | after signing: nonce, sign, confirm in that order; the confirmation call carries the key, the nonce's timestamp and the signature bytes in order; then only the matching callback |
| VerifyWallet.SignedBytesAreTheNonceMessage | hooks/useVerifyWallet.ts:35 | the bytes handed to the wallet decode to exactly the nonce's message |
| VerifyWallet.ResolvesIffConfirmAccepted | hooks/useVerifyWallet.ts:41-45 | a run resolves iff it requested confirmation and the request was accepted |
| VerifyWallet.IsLoading | hooks/useVerifyWallet.ts:47 | `isLoading`: either request pending; no contract of its own, stated by FlagsAfterRun and SettledFlags |
| VerifyWallet.IsSuccess | hooks/useVerifyWallet.ts:49 | `isSuccess`: the confirmation's success; no contract of its own, stated by FlagsAfterRun and SettledFlags |
| VerifyWallet.FlagsAfterRun | hooks/useVerifyWallet.ts:47-49 | after a run: success and no error when resolved; the failing request's error when a request failed; no new error after a failed check or signing; a run that started with neither request pending ends with neither pending |
| VerifyWallet.SettledFlags | hooks/useVerifyWallet.ts:47-49 | once both requests have settled: not loading; an error exactly when a request failed, the nonce request's first; success exactly when the confirmation succeeded |
| VerifyWallet.VerifyWalletHook.constructor | hooks/useVerifyWallet.ts:14-18 | both requests start idle |
| VerifyWallet.VerifyWalletHook.Mutate | hooks/useVerifyWallet.ts:21-46 | executing `mutate` step by step makes exactly the calls, reaches exactly the outcome and leaves exactly the request states that `Flow` describes |

## Left out

- JsBuiltins.ToLowerCase: maps only the ASCII letters A–Z. Other scripts' case mappings, which `toLowerCase` also applies, are left out because they need Unicode tables.
- JsBuiltins.ToLowerChar: likewise ASCII-only.
- Strings are sequences of Unicode scalar values, not UTF-16 code units. A lone surrogate cannot be represented, so `TextEncoder` replacing one with U+FFFD is not modelled.
- Page numbers are mathematical integers, not JavaScript numbers. NaN, fractional pages and very large counts are not modelled.
- The event's `metadata` field, and the helpers that format dates, amounts, metadata previews and status classes, are not part of this model. They only render text.
- The `LABEL_BY_TYPE[...] ?? event.type` fallback is not modelled separately. `PAYMENT` is the only type and always has a label.
- Fetching events is not modelled: the request, `refetch` and its toasts, and the error toast. `isLoading`, `isFetching`, `error` and the fetched list are inputs of the functions that use them.
- `URLSearchParams` is modelled as a map with one value per key. Key order, repeated keys and string serialisation are left out. So is `router.replace` navigation.
- The detail panel, the theme toggle and clipboard copying are not part of this model.
- The pager's Previous/Next handlers close over the list filtered at the last render. `EventsView` takes that list as an argument instead of recomputing it.
- The page numbers stored by `TableState`'s setters are not checked in the source and are not restricted in the model.
- Persistence storage I/O is left out: the storage key and reading or writing `localStorage`. `Restore` models only the merge of a saved record into the store.
- VerifyWallet.Flow: the two requests' replies and the wallet's signing are given as functions. Network failures are modelled as replies that carry an error.
- VerifyWallet.Flow: the requests' intermediate pending states, concurrent `mutate` calls and the timing of the awaits are not modelled. Each await is one atomic step, after which the request has settled.
- The arguments that react-query passes to `onSuccess` and `onError` are recorded only as the error (for `onError`). The confirmation reply's `success` flag is never read by the source, and the model does not read it either.
