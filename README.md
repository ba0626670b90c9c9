# Library management front end: a Dafny model

This project models the client-side logic of a library management web front end written
in TypeScript and React. It covers:

- **The HTTP client.** The request interceptor attaches a bearer token. The response
  interceptor passes on or rejects responses. The 401 handler refreshes the access token
  once, while later 401s wait in a queue and are replayed when the refresh succeeds.
- **The route guard.** It sends visitors to the login page or the dashboard, depending on
  the stored token and its expiry.
- **Six list pages.** These are the borrow records, borrow requests, books, categories,
  fines (librarian view and member view) and inventory pages. Each page has:
  - a filter (search, dates, status);
  - a comparator (a single-column tri-state sort, or a multi-key sort list);
  - pagination (page counts, page slices, row numbers, the Previous/Next controls);
  - its React state, modelled as a class whose methods are the handlers.
- **The review component.** It validates, adds, edits, updates and deletes reviews, and
  shows error messages whose precedence differs by handler.
- **Four forms.** These are add-book, add-fine, reset-password and verify-OTP. For each the
  model gives its schema's issues, its default values, the payload it sends and what a
  submission leads to (toast, navigation, loading flag).

### Modules

| Module | Source | Contents |
|---|---|---|
| `Wrappers`, `Text`, `Seqs` | shared | `Option`. JavaScript string behaviour: truthiness, `\|\|` fallbacks, ASCII `toLowerCase`, `includes`, `trim`, `<` on strings, decimal `toString`/`parseInt`. `filter`, `find`, `map` on lists. |
| `Pagination` | shared | Page count (`Math.ceil`), `slice`, page windows, row numbers, page controls. |
| `ColumnSort` | Both borrow lists | The single-column sort cycle and their text/date comparisons. |
| `MultiSort` | Books, categories and fines pages | The sort list and its comparator. |
| `Forms` | The form pages | Schema issues, thrown errors, toasts and submission outcomes. |
| `AxiosService` | `src/lib/services/axios.service.ts` | — |
| `AuthWrapper` | `src/components/common/layout/auth-wrapper.tsx` | — |
| `BorrowRecords`, `BorrowRequests` | The two borrow lists | — |
| `Books`, `Categories`, `Fines`, `FineMember`, `Inventory` | The catalogue pages | — |
| `Reviews` | `src/components/features/review/review.tsx` | — |
| `BookForm`, `FineForm`, `ResetPassword`, `VerifyOtp` | The form pages | — |

### Modelling choices

- **Stateful code is modelled as classes.** This covers the client's `isRefreshing` /
  `refreshQueue` fields, each page's React state and the review form. Each method's
  contract ties the new state to a pure step function over the old state. The properties
  are proved about those step functions.
- **Outside effects are explicit parameters.** The clock, `jwtDecode`, `encodeURIComponent`,
  the JavaScript engine's `sort`, API outcomes and the image upload are passed in as
  parameters.

### Behaviour worth knowing

The model states these as the code does them.

- **A failed token refresh.** It does not reject the queued requests. The code logs out and clears the flag, but leaves the queue untouched. A later successful
  refresh replays those requests (`AxiosService.RefreshFailureKeepsQueue`,
  `AxiosService.StaleRequestsReplayedByNextRefresh`).
- **A 401 with no stored refresh token.** The code returns before its `finally`, so
  `isRefreshing` stays set. Every later 401 is queued and never replayed
  (`AxiosService.StuckAfterMissingRefreshToken`).
- **The OTP redirect target.** The verify-OTP page redirects to `/reset-password`, but the
  reset page lives at `src/pages/auth/reset-password.tsx`, which is the route
  `/auth/reset-password`. The model states the URL as written.

## Model

| member | source | states |
|---|---|---|
| AxiosService.Bearer | src/lib/services/axios.service.ts:28 | the header is `Bearer ` followed by exactly the token |
| AxiosService.BearerToken | src/lib/services/axios.service.ts:28 | reading a token back gives a value whose header is the one read |
| AxiosService.BearerRoundTrip | src/lib/services/axios.service.ts:28 | reading back the header written for a token gives that token |
| AxiosService.InterceptRequest | src/lib/services/axios.service.ts:25-31 | a truthy stored token is set as the bearer header; with no token the config passes unchanged; method and URL always unchanged |
| AxiosService.Send | src/lib/services/axios.service.ts:25-31 | a sent request appends one entry, keeping method and URL, and nothing else in the client changes |
| AxiosService.Replay | src/lib/services/axios.service.ts:109-111 | a replayed request keeps method and URL and carries the bearer header of the new token |
| AxiosService.HandleResponse | src/lib/services/axios.service.ts:72-97 | 200 wraps the body as a success response, resolved iff `data.success`; 400 rejects with code "400" and the server message or "Request failed."; other statuses pass the raw response |
| AxiosService.RejectError | src/lib/services/axios.service.ts:40-64 | every non-401 error is rejected; a status of at least 500 becomes a failure with the status code and the server message or "Internal Server Error"; otherwise the raw error |
| AxiosService.OnError | src/lib/services/axios.service.ts:35-65 | a non-401 error rejects and leaves the state as it was; no error handler sends a request itself |
| AxiosService.Handle401 | src/lib/services/axios.service.ts:102-127 | the handler suspends on a refresh exactly for the first 401 with a config and a refresh token, queues exactly when a refresh is underway, posts at most that one refresh call, and sets the flag whenever there is a config |
| AxiosService.ServerFailureCode | src/lib/services/axios.service.ts:55-57 | the failure code of a server error reads back as its status |
| AxiosService.ReplayCarriesToken | src/lib/services/axios.service.ts:109-111 | a replayed request carries exactly `Bearer <new token>` whatever the interceptor does |
| AxiosService.RefreshData | src/lib/services/axios.service.ts:125-128 | a rejected refresh response yields no body |
| AxiosService.RefreshSucceeded | src/lib/services/axios.service.ts:128-141 | the flag and queue are cleared, the old requests stay sent, one request per queued entry plus the retry are added, and the outcome follows the last of them |
| AxiosService.RefreshFailed | src/lib/services/axios.service.ts:137-142 | the flag is cleared, nothing is sent, the token is kept, and the promise rejects with the refresh error |
| AxiosService.RefreshResponseDecides | src/lib/services/axios.service.ts:125-128 | a refresh answered 200 succeeds iff the body says success; 400 always fails; other statuses pass their body |
| AxiosService.EventsKeepConsistent | src/lib/services/axios.service.ts:102-143 | sending, an error, and either refresh outcome keep "a suspended handler exists only while refreshing" |
| AxiosService.Apply | src/lib/services/axios.service.ts:25-143 | one event never takes back a sent request or refresh call, adds at most one refresh call and at most one logout |
| AxiosService.Run | src/lib/services/axios.service.ts:25-143 | over n events the sent requests and refresh calls only grow, by at most n refresh calls and n logouts |
| AxiosService.QueuedWhileRefreshing | src/lib/services/axios.service.ts:107-114 | a 401 during a refresh appends exactly its request to the queue and changes nothing else |
| AxiosService.NoConfigRejected | src/lib/services/axios.service.ts:105 | a 401 without a config is rejected with the error itself and the state is untouched |
| AxiosService.FirstUnauthorizedStartsRefresh | src/lib/services/axios.service.ts:116-127 | the first 401 with a refresh token sets the flag and posts one refresh call with that token |
| AxiosService.MissingRefreshTokenLeavesFlagSet | src/lib/services/axios.service.ts:116-122 | with no refresh token: logout, rejection, and the flag stays set |
| AxiosService.RefreshSuccessReplaysInOrder | src/lib/services/axios.service.ts:128-141 | on refresh success the token is stored, every queued request is sent in order with it, the queue is emptied, the flag cleared and the original retried |
| AxiosService.RefreshFailureKeepsQueue | src/lib/services/axios.service.ts:137-142 | on refresh failure: one logout, rejection with the refresh error, flag cleared, queue unchanged |
| AxiosService.RunKeepsConsistent | src/lib/services/axios.service.ts:102-143 | every sequence of events preserves the consistency invariant |
| AxiosService.StuckAfterMissingRefreshToken | src/lib/services/axios.service.ts:116-122 | once the flag is set with no refresh call in flight, no event sequence clears it or issues a refresh |
| AxiosService.WaveConfigs | src/lib/services/axios.service.ts:107-114 | the configs of a wave of 401s, one per event, in order |
| AxiosService.WaveWhileRefreshing | src/lib/services/axios.service.ts:107-114 | during a refresh a wave of 401s only appends its requests to the queue in arrival order |
| AxiosService.OneRefreshPerWave | src/lib/services/axios.service.ts:107-127 | a wave of simultaneous 401s issues exactly one refresh call and queues all the others |
| AxiosService.StaleRequestsReplayedByNextRefresh | src/lib/services/axios.service.ts:132-139 | requests left queued by a failed refresh are replayed first by the next successful one |
| AxiosService.UnauthorizedThenRefreshed | src/lib/services/axios.service.ts:116-136 | a 401 followed by a successful refresh retries the request with the new token and sends nothing else |
| AxiosService.TwoConcurrentUnauthorized | src/lib/services/axios.service.ts:107-136 | two simultaneous 401s give one refresh call; the queued second request is sent before the first one's retry |
| AxiosService.Client.constructor | src/lib/services/axios.service.ts:9-19 | a new client is the initial state over the stored tokens: not refreshing, empty queue |
| AxiosService.Client.Request | src/lib/services/axios.service.ts:25-31 | the request leaves through the interceptor and is recorded as sent |
| AxiosService.Client.HandleLogout | src/lib/services/axios.service.ts:148-150 | counts one logout and changes nothing else |
| AxiosService.Client.InterceptError | src/lib/services/axios.service.ts:35-65 | the new state and outcome are those of the error step function |
| AxiosService.Client.Handle401Error | src/lib/services/axios.service.ts:102-127 | the new state and outcome are those of the 401 step function |
| AxiosService.Client.OnRefreshSucceeded | src/lib/services/axios.service.ts:128-141 | the new state and outcome are those of the refresh-success step |
| AxiosService.Client.OnRefreshFailed | src/lib/services/axios.service.ts:137-142 | the new state and outcome are those of the refresh-failure step |
| AuthWrapper.NoTokenGuard | src/components/common/layout/auth-wrapper.tsx:24-29 | without a token a non-public page is replaced by /login, a public one is left alone |
| AuthWrapper.Guard | src/components/common/layout/auth-wrapper.tsx:19-46 | at most two effects; a navigation is always the last effect and goes to /login or /dashboard; with no token the only possible effect is going to /login |
| AuthWrapper.ExpiryBoundary | src/components/common/layout/auth-wrapper.tsx:33 | a token is expired from the millisecond `exp * 1000` on, and never when `exp` is missing |
| AuthWrapper.RemovedIffExpired | src/components/common/layout/auth-wrapper.tsx:33-34 | the token is removed iff it decodes and is expired |
| AuthWrapper.ToLoginIff | src/components/common/layout/auth-wrapper.tsx:24-37 | the page is replaced by /login iff the page is not public and the token is missing or expired |
| AuthWrapper.ToDashboardIff | src/components/common/layout/auth-wrapper.tsx:38-41 | the page is replaced by /dashboard iff a valid unexpired token is held on the login or register page |
| AuthWrapper.LogoutIffUndecodable | src/components/common/layout/auth-wrapper.tsx:43-45 | logout happens iff a token is present and cannot be decoded, and then it is the only effect |
| AuthWrapper.AtMostOneReplace | src/components/common/layout/auth-wrapper.tsx:19-46 | one run of the guard replaces the route at most once |
| AuthWrapper.RedirectSettles | src/components/common/layout/auth-wrapper.tsx:19-46 | after a redirect, the guard run on the target page redirects no further |
| BorrowRecords.GetOverdueStatus | src/components/features/borrow-record/BorrowRecordList.tsx:119-135 | unreturned: overdue iff now is after the due date; returned with a date: iff returned after the due date; returned without a date: on time; label and colour follow |
| BorrowRecords.ReturnedStatusIgnoresClock | src/components/features/borrow-record/BorrowRecordList.tsx:123-128 | a returned record's status does not depend on the current time |
| BorrowRecords.SearchText | src/components/features/borrow-record/BorrowRecordList.tsx:172-175 | a missing field searches as "", a present one case-folded |
| BorrowRecords.FilterRecords | src/components/features/borrow-record/BorrowRecordList.tsx:170-198 | exactly the records passing search, date range, return status and overdue status are kept |
| BorrowRecords.EmptySearchMatchesAll | src/components/features/borrow-record/BorrowRecordList.tsx:178-182 | the empty search matches every record |
| BorrowRecords.UnpopulatedRecordSearch | src/components/features/borrow-record/BorrowRecordList.tsx:172-182 | a record with neither book nor user matches only the empty search |
| BorrowRecords.UnknownStatusFiltersMatchNothing | src/components/features/borrow-record/BorrowRecordList.tsx:186-195 | filter values other than the offered ones match no record |
| BorrowRecords.DefaultFiltersShowUnreturned | src/components/features/borrow-record/BorrowRecordList.tsx:68-72 | the initial filters list exactly the unreturned records, in fetched order |
| BorrowRecords.OverdueFiltersPartition | src/components/features/borrow-record/BorrowRecordList.tsx:192-195 | each record is in exactly one of "overdue" and "on_time", and in "all" |
| BorrowRecords.UnsortedKeepsOrder | src/components/features/borrow-record/BorrowRecordList.tsx:202 | with no column or direction every pair compares 0 |
| BorrowRecords.CompareRecords | src/components/features/borrow-record/BorrowRecordList.tsx:201-237 | the string columns always answer 1 or -1, and the two boolean columns answer -1, 0 or 1 |
| BorrowRecords.StringColumnNeverTies | src/components/features/borrow-record/BorrowRecordList.tsx:207-214 | equal texts in a string column compare as `-direction` both ways round |
| BorrowRecords.MissingReturnDateOrder | src/components/features/borrow-record/BorrowRecordList.tsx:219-224 | a missing return date sorts after dated records ascending, before them descending |
| BorrowRecords.NonStringColumnsAntisymmetric | src/components/features/borrow-record/BorrowRecordList.tsx:215-228 | date and boolean columns are antisymmetric, and descending negates ascending |
| BorrowRecords.BooleanColumnsAsBits | src/components/features/borrow-record/BorrowRecordList.tsx:225-226 | the returned column compares as the difference of 0/1 bits |
| BorrowRecords.View.constructor | src/components/features/borrow-record/BorrowRecordList.tsx:68-78 | default filters, page 1, ten per page, unsorted |
| BorrowRecords.View.CurrentItems | src/components/features/borrow-record/BorrowRecordList.tsx:201-237 | whatever the sort, the page shows only records passing the filters, and as many as that page of the filtered list holds (at most the page size) |
| BorrowRecords.View.DefaultPageShowsUnreturned | src/components/features/borrow-record/BorrowRecordList.tsx:201-240 | unsorted, with a stable engine and the initial filters, the page is exactly that page of the unreturned records in fetched order |
| BorrowRecords.View.HandleSort | src/components/features/borrow-record/BorrowRecordList.tsx:138-150 | the sort becomes the tri-state toggle of the old one; filters and page unchanged |
| BorrowRecords.View.SetSearchTerm | src/components/features/borrow-record/BorrowRecordList.tsx:277-278 | only the search term changes; the page is not reset |
| BorrowRecords.View.SetFilters | src/components/features/borrow-record/BorrowRecordList.tsx:285-317 | only the dates and status filters change |
| BorrowRecords.View.HandlePageChange | src/components/features/borrow-record/BorrowRecordList.tsx:239 | only the current page changes |
| BorrowRecords.View.HandleItemsPerPageChange | src/components/features/borrow-record/BorrowRecordList.tsx:241-244 | the new page size, and page 1 |
| BorrowRecords.View.ResetFilters | src/components/features/borrow-record/BorrowRecordList.tsx:246-255 | default filters, unsorted, page 1; page size kept |
| BorrowRequests.GetStatusValue | src/components/features/borrow-request/BorrowRequestList.tsx:177-188 | ranks 1, 2, 3 exactly for pending, approved, rejected; 4 otherwise |
| BorrowRequests.FilterRequests | src/components/features/borrow-request/BorrowRequestList.tsx:190-204 | exactly the requests passing search, date range and status are kept |
| BorrowRequests.EmptySearchMatchesAll | src/components/features/borrow-request/BorrowRequestList.tsx:194-198 | the empty search matches every request |
| BorrowRequests.OwnEmailMatches | src/components/features/borrow-request/BorrowRequestList.tsx:198 | searching a user's own email finds their requests |
| BorrowRequests.DefaultFiltersShowPending | src/components/features/borrow-request/BorrowRequestList.tsx:67-70 | the initial filters list exactly the pending requests, in fetched order |
| BorrowRequests.DefaultOrderNewestFirst | src/components/features/borrow-request/BorrowRequestList.tsx:208-211 | unsorted, a comes first iff newer; antisymmetric; same as request date descending |
| BorrowRequests.CompareRequests | src/components/features/borrow-request/BorrowRequestList.tsx:207-245 | the four text columns always answer 1 or -1, and the status column at most 3 either way |
| BorrowRequests.StatusOrder | src/components/features/borrow-request/BorrowRequestList.tsx:224-225 | ascending by status puts pending before approved before rejected before other values |
| BorrowRequests.MissingDecisionDates | src/components/features/borrow-request/BorrowRequestList.tsx:228-239 | missing decision dates sort last ascending, first descending; two missing tie |
| BorrowRequests.TitleColumnNeverTies | src/components/features/borrow-request/BorrowRequestList.tsx:216-217 | equal titles compare as `-direction` both ways round |
| BorrowRequests.DecisionOnlyWhenRankOne | src/components/features/borrow-request/BorrowRequestList.tsx:406 | approve/reject are offered iff the status ranks 1 |
| BorrowRequests.View.constructor | src/components/features/borrow-request/BorrowRequestList.tsx:67-77 | pending filter, page 1, ten per page, unsorted |
| BorrowRequests.View.CurrentItems | src/components/features/borrow-request/BorrowRequestList.tsx:207-247 | whatever the sort, the page shows only requests passing the filters, and as many as that page of the filtered list holds (at most the page size) |
| BorrowRequests.View.HandleSort | src/components/features/borrow-request/BorrowRequestList.tsx:117-129 | the sort becomes the tri-state toggle; nothing else changes |
| BorrowRequests.View.SetFilters | src/components/features/borrow-request/BorrowRequestList.tsx:67-70 | only the filters change; the page is kept |
| BorrowRequests.View.HandlePageChange | src/components/features/borrow-request/BorrowRequestList.tsx:249-251 | only the current page changes |
| BorrowRequests.View.HandleItemsPerPageChange | src/components/features/borrow-request/BorrowRequestList.tsx:253-256 | one of the offered sizes, and page 1 |
| BorrowRequests.View.ResetFilters | src/components/features/borrow-request/BorrowRequestList.tsx:258-266 | pending only, unsorted, page 1; page size kept |
| ColumnSort.Toggle | src/components/features/borrow-record/BorrowRecordList.tsx:138-150 | a new column starts ascending; ascending turns descending; descending clears column and direction |
| ColumnSort.ToggleKeepsWellFormed | src/components/features/borrow-record/BorrowRecordList.tsx:138-150 | a column is set exactly when a direction is, before and after every click |
| ColumnSort.ToggleTargetsClicked | src/components/features/borrow-record/BorrowRecordList.tsx:138-150 | after a click the list is sorted by the clicked column or unsorted |
| ColumnSort.ThreeClicksCycle | src/components/features/borrow-record/BorrowRecordList.tsx:138-150 | three clicks on one column return to the starting state |
| ColumnSort.ThreeClicksFromOtherColumn | src/components/features/borrow-record/BorrowRecordList.tsx:138-150 | three clicks on a new column end unsorted |
| ColumnSort.CompareTexts | src/components/features/borrow-record/BorrowRecordList.tsx:208 | a text comparison is always 1 or -1 |
| ColumnSort.EqualTextsDoNotTie | src/components/features/borrow-record/BorrowRecordList.tsx:208 | equal texts compare as `-direction` |
| ColumnSort.DifferentTextsOrdered | src/components/features/borrow-record/BorrowRecordList.tsx:208 | different texts compare antisymmetrically; ascending is positive iff the second is smaller |
| ColumnSort.MissingDateOrder | src/components/features/borrow-record/BorrowRecordList.tsx:221-224 | optional dates compare antisymmetrically; missing sorts last ascending; two missing tie |
| MultiSort.EmptyIsWellFormed | src/pages/books/index.tsx:89-91 | the initial empty sort list is well formed |
| MultiSort.FindUnique | src/pages/books/index.tsx:152 | in a well-formed list `find` returns the key's only entry |
| MultiSort.ToggleAbsent | src/pages/books/index.tsx:163 | a key not in the list is appended ascending |
| MultiSort.Toggle | src/pages/books/index.tsx:150-165 | a click adds at most one entry, and every entry for another key is kept and none is invented |
| MultiSort.ToggleAscending | src/pages/books/index.tsx:155-160 | an ascending entry turns descending in place; other entries unchanged |
| MultiSort.ToggleDescending | src/pages/books/index.tsx:156-159 | a descending entry is removed; the others keep their order |
| MultiSort.ToggleKeepsWellFormed | src/pages/books/index.tsx:150-165 | every click keeps the list free of duplicate keys and `none` entries |
| MultiSort.ThreeClicksRemove | src/pages/books/index.tsx:150-165 | three clicks on an absent key restore the list exactly |
| MultiSort.LessIrreflexive | src/pages/books/index.tsx:134 | no value is less than itself |
| MultiSort.LessAsymmetric | src/pages/books/index.tsx:134-135 | two values are never each less than the other |
| MultiSort.Compare | src/pages/books/index.tsx:124-138 | the comparator returns -1, 0 or 1 |
| MultiSort.CompareAntisymmetric | src/pages/books/index.tsx:124-138 | swapping the operands negates the result |
| MultiSort.CompareSelf | src/pages/books/index.tsx:124-138 | every element compares 0 with itself |
| MultiSort.CompareZeroIffAllTie | src/pages/books/index.tsx:124-138 | the result is 0 iff every entry ties |
| MultiSort.FirstDifferenceDecides | src/pages/books/index.tsx:125-136 | the first entry that does not tie decides, with its direction's sign |
| MultiSort.TiedEntryIsNeutral | src/pages/books/index.tsx:126 | removing an entry that ties leaves the result unchanged |
| MultiSort.UndefinedKeyIsNeutral | src/pages/books/index.tsx:127-135 | a key absent from both elements never changes the order |
| MultiSort.DroppingTiedEntries | src/pages/books/index.tsx:125-137 | dropping all tied entries anywhere in the list leaves the result unchanged |
| MultiSort.InactiveListTies | src/pages/books/index.tsx:123-126 | with no active entries every pair ties |
| MultiSort.SortedView | src/pages/books/index.tsx:122-139 | the view holds the filtered items, each as often as before; an empty list or an empty sort list is returned as it is |
| MultiSort.SortedPage | src/pages/books/index.tsx:122-143 | a page of the sorted view shows only filtered items, as many as the unsorted page |
| MultiSort.SortedPagesCover | src/pages/books/index.tsx:122-143 | every filtered item appears on some page between 1 and the page count, whatever the sort |
| Pagination.PageCount | src/pages/books/index.tsx:142 | the least number of pages that holds all items |
| Pagination.PageCountZero | src/pages/books/index.tsx:142 | zero pages exactly for the empty list |
| Pagination.ClampIndex | src/components/features/borrow-record/BorrowRecordList.tsx:237 | a slice bound clamped to the list, unchanged when in range |
| Pagination.JsSlice | src/components/features/borrow-record/BorrowRecordList.tsx:237 | a slice is never longer than the list |
| Pagination.PageItemsWindow | src/pages/books/index.tsx:143 | page p holds the window of at most `size` items from `(p-1)*size` |
| Pagination.PageItems | src/pages/books/index.tsx:143 | every item on a page is an item of the list |
| Pagination.SliceWindow | src/pages/books/index.tsx:143 | a slice with bounds `0 <= a <= b` is the window between them clamped to the list, at most `b - a` long |
| Pagination.SliceAt | src/pages/books/index.tsx:143 | position k of a slice from `a` is list item `a + k` while that is inside the list and before the end bound |
| Pagination.SliceIndex | src/pages/books/index.tsx:143 | every position k of a slice from `a` holds list item `a + k`, which lies inside the list and before the end bound |
| Pagination.PageItemsAt | src/pages/books/index.tsx:143 | item k of page p is list item `(p-1)*size + k` |
| Pagination.EveryItemHasAPage | src/pages/books/index.tsx:141-143 | every item appears on page `i / size + 1`, which is within the page count |
| Pagination.PastTheLastPage | src/pages/books/index.tsx:143 | a page past the last shows no rows |
| Pagination.RowNumberIsListPosition | src/pages/books/index.tsx:274 | the row number shown is the item's 1-based position in the list |
| Pagination.PageOfPermutation | src/pages/books/index.tsx:122-143 | a page of a rearranged list shows only items of the list, as many as the page of the list itself |
| Pagination.SortedPageOf | src/components/features/borrow-record/BorrowRecordList.tsx:201-237 | a page of the engine's result shows only items of its input, as many as the unsorted page |
| Pagination.PermutationFullyPaged | src/pages/books/index.tsx:141-143 | every item of a rearranged list is on some page between 1 and the page count |
| Pagination.ClampedStepsStayInRange | src/pages/books/index.tsx:337-361 | Previous and Next move by at most one page and stay within `[1, totalPages]` |
| Pagination.GuardedStepsStayInRange | src/components/features/borrow-record/BorrowRecordList.tsx:442-453 | the guarded controls land in range, and with one page neither is shown |
| Categories.FilterCategories | src/pages/categories/index.tsx:81-83 | exactly the categories whose name contains the search, case-folded |
| Categories.EmptySearchKeepsAll | src/pages/categories/index.tsx:81-83 | the empty search keeps the whole list in order |
| Categories.FoundByOwnName | src/pages/categories/index.tsx:81-83 | a category is found by its own name in any letter case |
| Categories.SortByName | src/pages/categories/index.tsx:85-97 | sorting by name ties iff the names are equal, otherwise order follows string order and direction |
| Categories.Visible | src/pages/categories/index.tsx:85-101 | at most ten rows, every one a match, as many as that page of the matches holds; unsorted, exactly that page of the filtered list |
| Categories.EveryMatchShown | src/pages/categories/index.tsx:85-101 | whatever the sort, every match appears on some page the controls offer |
| Categories.CategoryPage.constructor | src/pages/categories/index.tsx:71-75 | page 1, empty search, empty sort list |
| Categories.CategoryPage.Rows | src/pages/categories/index.tsx:85-101 | at most ten rows, only categories matching the search, as many as that page of the matches holds |
| Categories.CategoryPage.HandleSort | src/pages/categories/index.tsx:108-123 | the sort list becomes its toggle; page and search kept |
| Categories.CategoryPage.SetSearch | src/pages/categories/index.tsx:103-105 | a new search returns to page 1 |
| Categories.CategoryPage.PreviousPage | src/pages/categories/index.tsx:266 | the page becomes `max(1, page-1)` |
| Categories.CategoryPage.NextPage | src/pages/categories/index.tsx:290 | the page becomes `min(totalPages, page+1)` |
| Categories.CategoryPage.GoToPage | src/pages/categories/index.tsx:271-278 | a page link sets the page it names |
| Books.FilterBooks | src/pages/books/index.tsx:98-110 | exactly the books matching search (title, author or QR code) and status |
| Books.MissingQrCodeNeverMatches | src/pages/books/index.tsx:106 | a book without a QR code matches only through its title or author |
| Books.StatusFilterExact | src/pages/books/index.tsx:107 | a chosen status keeps exactly that status; "" and "all" keep every book |
| Books.InitialFiltersKeepAll | src/pages/books/index.tsx:86-88 | the initial filters show the whole list in order |
| Books.CategoryMapDomain | src/pages/books/index.tsx:113-119 | an id is in the map iff some category has it |
| Books.CategoryMap | src/pages/books/index.tsx:113-119 | every entry of the map is the id and name of some category |
| Books.CategoryMapLastWins | src/pages/books/index.tsx:115-118 | the map holds the name of the last category with that id |
| Books.CategoryLabel | src/pages/books/index.tsx:278 | a known id with a non-empty name shows the name, otherwise the fallback label |
| Books.UnknownCategoryLabel | src/pages/books/index.tsx:278 | a book whose category is not in the list shows the fallback |
| Books.MissingStatusSortsFirst | src/pages/books/index.tsx:130-133 | a book with no status sorts before named statuses ascending, after them descending |
| Books.CategoryColumnSortsById | src/pages/books/index.tsx:127-128 | the category column ties iff the category ids are equal |
| Books.QuantityColumnNumeric | src/pages/books/index.tsx:127-135 | the quantity column orders numerically |
| Books.Visible | src/pages/books/index.tsx:122-143 | at most ten rows, every one a match, as many as that page of the matches holds; unsorted, exactly that page of the filtered list |
| Books.EveryMatchShown | src/pages/books/index.tsx:122-143 | whatever the sort, every match appears on some page the controls offer |
| Books.BookPage.constructor | src/pages/books/index.tsx:86-91 | page 1, empty search, status "all", empty sort list |
| Books.BookPage.Rows | src/pages/books/index.tsx:122-143 | at most ten rows, only books passing the filters, as many as that page of the matches holds |
| Books.BookPage.HandleSort | src/pages/books/index.tsx:150-165 | the sort list becomes its toggle; other state kept |
| Books.BookPage.SetSearch | src/pages/books/index.tsx:145-147 | a new search returns to page 1 |
| Books.BookPage.SetStatus | src/pages/books/index.tsx:145-147 | a new status returns to page 1 |
| Books.BookPage.PreviousPage | src/pages/books/index.tsx:337 | the page becomes `max(1, page-1)` |
| Books.BookPage.NextPage | src/pages/books/index.tsx:361 | the page becomes `min(totalPages, page+1)` |
| Books.BookPage.GoToPage | src/pages/books/index.tsx:342-349 | a page link sets the page it names |
| Inventory.CategoryNameOf | src/pages/inventory/index.tsx:63-65 | the fallback label when categories are not loaded or none has the id |
| Inventory.FirstMatchLabel | src/pages/inventory/index.tsx:64 | the first category with the id decides the label: its name, or the fallback if the name is empty |
| Inventory.FirstMatchingCategoryNames | src/pages/inventory/index.tsx:64 | the first category with the id names the book, if its name is non-empty |
| Inventory.AgreesWithBookList | src/pages/inventory/index.tsx:63-65 | with distinct ids, the inventory label equals the book list's label |
| Inventory.WithCategories | src/pages/inventory/index.tsx:60-66 | every book joined with its category name, in order; no books gives [] |
| Inventory.FilterBooks | src/pages/inventory/index.tsx:71-81 | exactly the books matching the query and the category |
| Inventory.BlankQueryKeepsCategory | src/pages/inventory/index.tsx:73 | a blank query keeps every book in the selected category, in order |
| Inventory.LongQueryNotFound | src/pages/inventory/index.tsx:72-75 | a non-blank query longer than both title and author matches no book |
| Inventory.QueryIsNotTrimmed | src/pages/inventory/index.tsx:72-75 | the query is matched untrimmed: a title typed with a leading space does not find its own book |
| Inventory.HandleBorrowClick | src/pages/inventory/index.tsx:217-233 | no user: nothing sent, an error toast; otherwise `{user_id, book_id}` is sent and the outcome picks the toast |
| Inventory.BorrowButton | src/pages/inventory/index.tsx:213-240 | the borrow handler exists exactly for an available book with copies left; any request it sends names that book and a truthy user |
| Inventory.FailureMessageNeverEmpty | src/pages/inventory/index.tsx:229-232 | a failure toast is never empty and reads only the server's message |
| Fines.SearchedTitle | src/pages/fine/index.tsx:90 | the borrow record's title when truthy, else the fine's own book title |
| Fines.FilterFines | src/pages/fine/index.tsx:87-96 | exactly the fines matching search and paid status |
| Fines.StatusFilterValues | src/pages/fine/index.tsx:92-94 | "all" keeps all, "false" unpaid, "true" paid, anything else none |
| Fines.UnknownStatusShowsNothing | src/pages/fine/index.tsx:92-94 | an unknown status value empties the list |
| Fines.RecordTitleTakesPrecedence | src/pages/fine/index.tsx:89-90 | with a record title, the search looks at email and that title only |
| Fines.NothingToSearchNeverMatches | src/pages/fine/index.tsx:89-90 | a fine with no email and no title matches no search |
| Fines.UnpaidFilterListsPayable | src/pages/fine/index.tsx:259 | the unpaid filter lists exactly the matching fines that offer the pay action |
| Fines.NameAndTitleColumnsNeverDecide | src/pages/fine/index.tsx:55-57 | sort entries for member name and book title have no effect on the order |
| Fines.NameAndTitleOnlyTie | src/pages/fine/index.tsx:104-107 | a sort list of only those columns ties every pair |
| Fines.UnpaidSortsFirst | src/pages/fine/index.tsx:104-107 | ascending by status puts unpaid fines first |
| Fines.Visible | src/pages/fine/index.tsx:99-115 | at most ten rows, every one a match, as many as that page of the matches holds; unsorted, exactly that page of the filtered list |
| Fines.EveryMatchShown | src/pages/fine/index.tsx:99-115 | whatever the sort, every match appears on some page the controls offer |
| Fines.FinePage.constructor | src/pages/fine/index.tsx:76-81 | page 1, empty search, status "all", empty sort list |
| Fines.FinePage.Rows | src/pages/fine/index.tsx:99-115 | at most ten rows, only fines passing the filters, as many as that page of the matches holds |
| Fines.FinePage.HandleSort | src/pages/fine/index.tsx:122-135 | the sort list becomes its toggle; other state kept |
| Fines.FinePage.SetSearch | src/pages/fine/index.tsx:117-119 | a new search returns to page 1 |
| Fines.FinePage.SetStatus | src/pages/fine/index.tsx:117-119 | a new status returns to page 1 |
| Fines.FinePage.PreviousPage | src/pages/fine/index.tsx:283 | the page becomes `max(1, page-1)` |
| Fines.FinePage.NextPage | src/pages/fine/index.tsx:307 | the page becomes `min(totalPages, page+1)` |
| Fines.FinePage.GoToPage | src/pages/fine/index.tsx:288-295 | a page link sets the page it names |
| FineMember.FilterFines | src/pages/fine/fineMember.tsx:54-61 | exactly the fines whose record title contains the search and that match the status |
| FineMember.UntitledFineNeverListed | src/pages/fine/fineMember.tsx:56 | a fine without a record title is never listed |
| FineMember.InitialFiltersKeepTitled | src/pages/fine/fineMember.tsx:49-50 | the initial filters list exactly the fines with a record title |
| FineMember.NarrowerThanLibrarianSearch | src/pages/fine/fineMember.tsx:55-56 | a fine the librarian finds by email or direct title is not found here |
| FineMember.MemberMatchImpliesLibrarianMatch | src/pages/fine/fineMember.tsx:55-56 | with a non-empty record title, a member match is a librarian match |
| FineMember.EmptyRecordTitleOnlyMemberMatches | src/pages/fine/fineMember.tsx:56 | an empty record title is found by the member's empty search but not the librarian's |
| FineMember.Visible | src/pages/fine/fineMember.tsx:63-65 | the window of the filtered fines from `(page-1)*10`: row k is filtered fine `(page-1)*10 + k`, there are `min(10, count - (page-1)*10)` rows while that is positive and none past the last fine |
| FineMember.EveryMatchShown | src/pages/fine/fineMember.tsx:63-65 | every fine the filters keep is shown on some page from 1 to the page count |
| FineMember.MemberFinePage.constructor | src/pages/fine/fineMember.tsx:48-50 | page 1, empty search, status "all" |
| FineMember.MemberFinePage.Rows | src/pages/fine/fineMember.tsx:63-65 | the same window for the page state's search, status and page: which fines appear and how many |
| FineMember.MemberFinePage.SetSearch | src/pages/fine/fineMember.tsx:67-69 | a new search returns to page 1 |
| FineMember.MemberFinePage.SetStatus | src/pages/fine/fineMember.tsx:67-69 | a new status returns to page 1 |
| FineMember.MemberFinePage.PreviousPage | src/pages/fine/fineMember.tsx:158 | the page becomes `max(1, page-1)` |
| FineMember.MemberFinePage.NextPage | src/pages/fine/fineMember.tsx:182 | the page becomes `min(totalPages, page+1)` |
| FineMember.MemberFinePage.GoToPage | src/pages/fine/fineMember.tsx:163-170 | a page link sets the page it names |
| Reviews.AddErrorMessage | src/components/features/review/review.tsx:59-65 | the server's message when present, else the add default |
| Reviews.LaterErrorMessage | src/components/features/review/review.tsx:96-102 | the error's own message, then the server's, then the default |
| Reviews.ErrorMessagesNonEmpty | src/components/features/review/review.tsx:59-126 | no handler shows an empty error |
| Reviews.PrecedenceDiffers | src/components/features/review/review.tsx:64-101 | with both messages present add shows the server's and update its own |
| Reviews.Validate | src/components/features/review/review.tsx:28-35 | no rating reported first, then a blank comment; passes iff rated and non-blank |
| Reviews.MissingRatingReportedFirst | src/components/features/review/review.tsx:28-31 | no rating: the rating error, nothing sent |
| Reviews.BlankCommentRejected | src/components/features/review/review.tsx:32-35 | a blank comment: the comment error, nothing sent |
| Reviews.SentIffValid | src/components/features/review/review.tsx:37-42 | a request is sent iff validation passes, carrying the trimmed comment |
| Reviews.SuccessfulAdd | src/components/features/review/review.tsx:44-50 | success clears the form and calls back with the values as typed |
| Reviews.FailedAddKeepsInput | src/components/features/review/review.tsx:54-72 | failure keeps the input and shows the add message |
| Reviews.ApiAndCallbackComments | src/components/features/review/review.tsx:41-49 | the API gets the trimmed comment and the callback the untrimmed one |
| Reviews.Submit | src/components/features/review/review.tsx:26-74 | editing is untouched; any request is an add for this book with the chosen rating; a callback only after a successful add with the prop given; no error left exactly when a request was sent and succeeded |
| Reviews.Edit | src/components/features/review/review.tsx:76-81 | editing loads the review's rating and comment and clears the error |
| Reviews.UpdateNeedsEditing | src/components/features/review/review.tsx:85 | without a review being edited, update does nothing |
| Reviews.Update | src/components/features/review/review.tsx:83-107 | a request is sent exactly while editing, as an update of the edited review; no callback; success returns to the empty form |
| Reviews.EditThenUpdate | src/components/features/review/review.tsx:83-92 | edit then update sends the review's own values under its id, and success clears the form |
| Reviews.UpdateSkipsChecks | src/components/features/review/review.tsx:86 | update sends a zero rating and a blank comment unchecked |
| Reviews.DeleteKeepsDraft | src/components/features/review/review.tsx:109-114 | delete ends editing and clears the error but keeps rating and comment |
| Reviews.Delete | src/components/features/review/review.tsx:109-129 | the delete request is always sent for the given id, rating and comment are kept, and no error is left exactly on success |
| Reviews.FilteredReviews | src/components/features/review/review.tsx:131 | exactly the reviews of the book; none while not loaded |
| Reviews.SameBookKeepsAll | src/components/features/review/review.tsx:131 | a list of that book's reviews is shown whole and in order |
| Reviews.CanEditIffSameAuthor | src/components/features/review/review.tsx:133-135 | editable iff one of the user's reviews has the same author |
| Reviews.OwnReviewEditable | src/components/features/review/review.tsx:133-135 | a review by the author of one of the user's reviews is editable |
| Reviews.ReviewForm.constructor | src/components/features/review/review.tsx:17-20 | an empty form; nothing sent yet |
| Reviews.ReviewForm.Record | src/components/features/review/review.tsx:26-129 | a handler's step becomes the state, and its request and callback are appended |
| Reviews.ReviewForm.SetRating | src/components/features/review/review.tsx:160 | a star button sets the rating only |
| Reviews.ReviewForm.SetComment | src/components/features/review/review.tsx:172 | typing sets the comment only |
| Reviews.ReviewForm.CancelAdd | src/components/features/review/review.tsx:176-178 | cancel clears rating, comment and error |
| Reviews.ReviewForm.CancelEdit | src/components/features/review/review.tsx:235-239 | cancel editing returns to the empty form |
| Reviews.ReviewForm.HandleSubmit | src/components/features/review/review.tsx:26-74 | the state and records follow the submit step |
| Reviews.ReviewForm.HandleEdit | src/components/features/review/review.tsx:76-81 | the state follows the edit step |
| Reviews.ReviewForm.HandleUpdate | src/components/features/review/review.tsx:83-107 | the state and records follow the update step |
| Reviews.ReviewForm.HandleDelete | src/components/features/review/review.tsx:109-129 | the state and records follow the delete step |
| Forms.MinLength | src/pages/books/add.tsx:34 | an issue with the given message iff the text is shorter than the minimum |
| Forms.MaxLength | src/pages/verifyotp.tsx:30 | an issue with the given message iff the text is longer than the maximum |
| Forms.ServerFirstMessage | src/pages/auth/reset-password.tsx:64-68 | the server's message, else the error's, else the fallback |
| Forms.ServerFirstMessageNonEmpty | src/pages/auth/reset-password.tsx:64-68 | with a non-empty fallback the message is never empty |
| BookForm.NonNegative | src/pages/books/add.tsx:37-38 | no issue iff a number at least 0; NaN gets the library's message, a negative number ours |
| BookForm.OneOf | src/pages/books/add.tsx:39 | no issue iff the value is one of the options |
| BookForm.BookIssuesIffInvalid | src/pages/books/add.tsx:33-43 | no issues iff every rule holds; each broken rule reports under its own field |
| BookForm.DefaultsLackOnlyRequiredText | src/pages/books/add.tsx:56-66 | the defaults fail exactly on title, author and category; filling those three makes them valid |
| BookForm.QuantitiesCheckedIndependently | src/pages/books/add.tsx:37-38 | validity does not depend on how the two non-negative quantities relate |
| BookForm.OutOfStockRejected | src/pages/books/add.tsx:39 | the status "out_of_stock" is rejected |
| BookForm.Submit | src/pages/books/add.tsx:69-91 | sends iff valid and the upload did not fail; payload is the values plus the image address or ""; success shows the toast and goes to /books; failures show the server's message or the default |
| BookForm.NoImageEmptyUrl | src/pages/books/add.tsx:71-80 | without an image the payload's image address is ""; every toast has text |
| FineForm.FineIssuesIffInvalid | src/pages/fine/add.tsx:33-39 | no issues iff member, book, reason are set and the amount is at least 1 |
| FineForm.Trunc | src/pages/fine/add.tsx:76 | the integer part, within one of the amount, toward zero |
| FineForm.SubmitDataOfValid | src/pages/fine/add.tsx:72-78 | a valid form's payload keeps the texts, bills between 1 and the amount typed, paid only when set true |
| FineForm.SubmitData | src/pages/fine/add.tsx:72-78 | member, book and reason are passed as typed, a non-negative amount is cut to its integer part, and `is_paid` is true only when set true |
| FineForm.QueryUserId | src/pages/fine/add.tsx:44 | the query's user id when truthy, else "" |
| FineForm.DefaultsRejected | src/pages/fine/add.tsx:52-58 | the defaults fail at least on book, amount and reason |
| FineForm.SyncUserId | src/pages/fine/add.tsx:64-68 | a non-empty query id overwrites the member field; otherwise nothing changes |
| FineForm.SyncedMemberPasses | src/pages/fine/add.tsx:64-68 | after a sync with a non-empty id the member rule holds |
| FineForm.BookButtonLabel | src/pages/fine/add.tsx:120 | never empty; "Chọn sách" when the books are not loaded or none has the id |
| FineForm.ChosenBookLabelsButton | src/pages/fine/add.tsx:120 | the first book with the chosen id names the button |
| FineForm.Submit | src/pages/fine/add.tsx:70-85 | sends the truncated payload iff valid; success goes to /fine; failure shows the fixed message |
| FineForm.FailureIgnoresError | src/pages/fine/add.tsx:82-84 | every failure reads the same, whatever the error |
| ResetPassword.PasswordIssuesIffInvalid | src/pages/auth/reset-password.tsx:28-36 | no issues iff equal and at least six characters; a mismatch is reported under confirmPassword exactly when they differ |
| ResetPassword.ShortMismatchReportsAll | src/pages/auth/reset-password.tsx:28-36 | short, different passwords report both length rules and the mismatch |
| ResetPassword.Render | src/pages/auth/reset-password.tsx:74-96 | nothing before mounting; the form iff email and OTP are both present |
| ResetPassword.Submit | src/pages/auth/reset-password.tsx:57-72 | sends email, OTP and new password iff valid; loading rises and falls; success goes to /auth/login; failure shows the server-first message |
| ResetPassword.LoadingEndsLowered | src/pages/auth/reset-password.tsx:69-71 | loading ends false after every submission, and every error toast has text |
| VerifyOtp.OtpIssuesIffLengthSix | src/pages/verifyotp.tsx:29-31 | no issues iff the code has six characters; otherwise one issue |
| VerifyOtp.Render | src/pages/verifyotp.tsx:73-120 | the placeholder before mounting; the form iff an email is present |
| VerifyOtp.Submit | src/pages/verifyotp.tsx:50-71 | a six-character code shows the success toast and redirects with email and code; loading rises and falls |
| VerifyOtp.RedirectCarriesBoth | src/pages/verifyotp.tsx:61 | if neither the encoded email nor the code holds `&`, the query splits into exactly the two assignments |
| VerifyOtp.DigitCodesNeedNoEncoding | src/pages/verifyotp.tsx:61 | a digit-only code holds no `&` |
| VerifyOtp.UnencodedCodeSplits | src/pages/verifyotp.tsx:61 | a code holding `&` loses its tail to a separate query parameter |
| VerifyOtp.AmpersandCodeAccepted | src/pages/verifyotp.tsx:30 | "12&x=1" passes the length rule |

## Left out

- **The axios library itself.** The model covers transport, `baseURL`, header merging and
  the instance call only as far as the client reads or writes them. A request resolves as
  an outcome handed to the model.
- **Response bodies.** `Body` is always present. A 200 response without `data` is not
  modelled.
- **A 401 on the refresh call itself.** This reaches the client as one more 401 event
  (queued, since the flag is set). The model does not follow the hang this causes.
- **What `logout` does.** The model counts the calls only; clearing storage and
  redirecting are not modelled.
- **`createAbortSignal` and `getAxiosInstance`.** These are thin accessors, so they are
  not modelled.
- **Token decoding and the clock.** `jwtDecode` is a parameter, and `Date.now()` is a
  parameter in milliseconds.
- **Dates.** Dates are integers (milliseconds). Invalid dates (NaN) are not modelled.
- **Case folding.** `toLowerCase` is modelled for ASCII letters only.
- **String lengths.** They are counted in code points, not UTF-16 units.
- Text.StrLess: orders strings by code point, while JavaScript `<` compares UTF-16 code
  units. The two orders differ when a character above U+FFFF meets one in U+E000–U+FFFF,
  so the text comparators are exact only for strings outside that case.
- **`encodeURIComponent`.** It is a parameter, stated only by the `&` property assumed of
  its output.
- **Array sorting.** `Array.prototype.sort` is a parameter. The model assumes only that it
  returns a rearrangement of its input (`Seqs.SortPermutes`). Which order it picks is not
  modelled, least of all for a comparator that is not consistent. For a sorted page the
  contracts therefore fix three things only: every row is a match, the page has as many rows
  as the same page of the unsorted matches, and every match is on some page. Which matches
  land on a given page depends on the engine's order and is left open. With no sort and a
  stable engine (`Seqs.StableOnTies`) the borrow-record page is fixed completely
  (`BorrowRecords.View.DefaultPageShowsUnreturned`).
- **Data not yet loaded.** This is treated as an empty list, as the pages' `|| []` do.
- **Loading spinners and error screens.** These render paths are not modelled.
- **The async action handlers.** These are:
  - return confirmation in the borrow-record list;
  - approve and reject in the borrow-request list;
  - pay and delete in the fine list;
  - delete in the book and category lists.

  They are thin wrappers around an API call and a toast. Only whether each action is
  offered is modelled (`BorrowRequests.DecisionOnlyWhenRankOne`,
  `Fines.UnpaidFilterListsPayable`).
- **`is_returned`.** It is a boolean in the model. A truthy non-boolean value is folded
  into it.
- **The schema library.** zod and react-hook-form are left out. A rule the library
  reports with its own wording carries no message in the model.
- **The password-match refinement.** It is assumed to run even when a length rule has
  already failed, as the library's object refinements do for non-fatal issues.
- **The add-book quantities.** They come from `parseInt`, and NaN is written `None`.
- **The add-fine amount.** It comes from `Number` on a number input, modelled as a real.
- **FineForm.Trunc.** It does not model `toString` giving exponent notation from 1e21 up,
  where `parseInt` reads only the leading digit.
- **The reset-password query values.** They are strings. `String` applied to a repeated
  parameter (an array) is not modelled.
- **The verify-OTP `catch` branch.** The simulated call cannot fail, so the model has no
  failure path for that submission.
- **The image upload.** It is an outside call, given as its result.
- **`console.log`, SWR cache mutation and the UI components.** These are not modelled.
