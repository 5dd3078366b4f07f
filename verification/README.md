# To-do client core in Dafny

This project models the client-side logic of a Next.js to-do application:
its request layer, its todo and user operations, and the decision logic inside
its React components. The parts modelled are:

- **Request layer** (`api/comman/core.ts`, module `Core`, plus module `Dedup`):
  - how the API base URL and request URLs are formed;
  - how the bearer token is obtained;
  - the headers each of the six request helpers sends;
  - how a response becomes a value or an error message;
  - `dedupedFetch`, the in-flight map that lets concurrent identical calls share one promise.
- **Key and route tables** (`api/comman/api.enum.ts`, module `ApiEnum`):
  - the dedup-key builders and the routes;
  - the form-urlencoded query string `URLSearchParams` produces. This is module `UrlEncode`, following section 5.2 of the WHATWG URL Standard.
- **Todo operations** (`api/todos.ts`, module `TodosApi`): each operation is a plan of key, helper, route and body, run against a network given as a function.
- **User operations** (`api/user.ts`, module `UserApi`): get, create, and the get / create / get composition that makes sure a backend user exists.
- **Pagination control** (`components/shared/paginationComp.tsx`, module `Pagination`): the window of page numbers shown and the arrow rules.
- **List page** (`app/todos/page.tsx`, module `TodosPage`): filter, search, page and fetch state as a state machine.
- **Todo row** (`components/todos/TodoItem.tsx`, module `TodoItem`): edit validation, save, cancel and toggle.
- **Add form** (`components/todos/AddTodoForm.tsx`, module `AddTodoForm`): submit guard, trimming, reset and expand-on-type.
- **Profile form** (`components/user/UserProfileComp.tsx`, module `UserProfile`): password checks, provider outcomes and name initialisation.

Three shared modules support the rest:

- `Wrappers` holds `Option` and `Result`.
- `Text` covers the JavaScript string behaviour the code relies on:
  - decimal numerals;
  - `String.prototype.trim` with the ECMAScript whitespace set;
  - `.length` in UTF-16 code units;
  - `includes`.
- `UrlEncode` holds the form-urlencoded serializer.

The outside world is passed in as parameters:

- The network is a function from a `Request` to a `Transport`. A `Transport` is either a response (a status plus a body that parsed as JSON or did not) or a network failure.
- The environment variables make up an `Env`.
- The browser's token getter is a `TokenEnvironment`.
- Each callback or identity-provider call is given by the outcome of its promise.
- Asynchrony in `dedupedFetch` becomes a sequence of `Call` and `Settle` events.

Behaviours of the code the model keeps:

- **Error messages of a non-ok response.** The message is the body's `error` member when it is truthy, rendered by `String()`: `{"error": 42}` rejects with "42". When the body is not JSON, the code substitutes `{ error: "Request failed" }` (`api/comman/core.ts:114-116`), so the message is "Request failed" and names no status. The status is named only when the body parses but has no truthy `error` (`Core.NonOkMessage`, `Core.StatusMappingExamples`).
- **User calls are not deduplicated.** The three calls of `callApi_ensureUser` go through `authenticatedGet` and `authenticatedPost` directly, without `dedupedFetch` (`api/user.ts:43-58`). So `UserApi` has no dedup keys.
- **At most one slash.** `apiUrl` removes at most one leading "/" (`Core.ApiUrlStripsOneSlashOnly`).
- **"undefined" base.** Outside development, an unset `NEXT_PUBLIC_API_URL` is interpolated as the text "undefined" (`Core.ApiBaseUrl`).
- **Rejections propagate from the new-todo form.** `handleSubmit` has a `finally` but no `catch`, so a rejected `onAdd` makes it reject too (`AddTodoForm.Submit`).

## Model

| member | source | states |
|---|---|---|
| Core.ApiBaseUrl | api/comman/core.ts:7-10 | In development the base is the local server on port 3001. Otherwise it is the configured URL, or "undefined" when none is set. |
| Core.ApiUrl | api/comman/core.ts:15-19 | The URL is the base, one "/", then the path with exactly one leading "/" removed if it had one. |
| Core.ApiUrlLeadingSlashIrrelevant | api/comman/core.ts:17-18 | "todos" and "/todos" produce the same URL. |
| Core.ApiUrlStripsOneSlashOnly | api/comman/core.ts:17 | A path starting with "//" keeps one slash, so the URL has a double slash after the base. |
| Core.GetAuthToken | api/comman/core.ts:47-77 | A token is returned exactly when the code runs in a browser, the getter is installed, it resolves, and the token is non-empty. That token is returned unchanged. Being outside a browser, a missing getter, a getter that throws, and null or "" all give none. |
| Core.BearerRoundTrip | api/comman/core.ts:92-94 | Reading the `Authorization` value back as RFC 6750 section 2.1 credentials gives exactly the token, if and only if the token is a well-formed b64token. |
| Core.CreateAuthHeaders | api/comman/core.ts:82-104 | The keys are the caller's headers plus Content-Type, plus Authorization exactly when there is a token. Content-Type is application/json unless the caller overrides it. The caller's other values are kept, and so is the caller's Authorization when there is no token. A token's bearer value replaces any caller Authorization. A failed lookup yields no headers. |
| Core.AuthenticatedRequestCarriesToken | api/comman/core.ts:62-93 | For every authenticated helper, the request carries `Bearer <token>` exactly when `getAuthToken` yields a token, and that token is the getter's own. The header keys are exactly Content-Type (except on DELETE) and Authorization (only with a token). Content-Type is application/json. |
| Core.BuildRequest | api/comman/core.ts:106-240 | Each helper has its own verb and the URL `apiUrl(path)`. publicGet sends no headers, and publicPost sends only Content-Type. The authenticated GET, POST and PATCH send exactly the headers of `createAuthHeaders()`. DELETE sends those headers minus Content-Type. So only the authenticated helpers send Authorization, and only when there is a token. GET and DELETE send no body. |
| Core.NonOkMessage | api/comman/core.ts:113-120 | The message is the truthy `error` member as `String()` renders it. It is "Request failed" for a body that does not parse. Otherwise it is exactly "Request failed with status " followed by the status numeral, so `includes` finds the numeral. It is empty only for a truthy `error` whose `String()` is empty. |
| Core.Interpret | api/comman/core.ts:113-122 | A non-ok status always fails with that message. Success happens exactly for an ok status with a JSON body, and the value is the parsed body. An ok response that does not parse fails with the parser's message. A network failure is passed on. |
| Core.StatusMappingExamples | api/comman/core.ts:113-120 | 404 with `{"error":"Not found"}` gives "Not found". An unparsable 500 gives "Request failed". A 500 without `error` gives "Request failed with status 500". |
| Core.Perform | api/comman/core.ts:109-123 | End to end through any network: a non-ok response rejects with the message of Core.NonOkMessage. The call resolves exactly when the response is ok and parses as JSON, and then to the parsed body. A network failure rejects with its own message. |
| Dedup.CallStep | api/comman/core.ts:30-41 | A key already in the map returns the stored promise and does not invoke `fn`. An absent key invokes `fn` once, and its new promise is stored under that key only, unless `fn` throws synchronously, in which case nothing is stored. Other keys are untouched. |
| Dedup.SettleStep | api/comman/core.ts:38 | Settlement deletes the settled promise's key and nothing else. The invocation count is unchanged. |
| Dedup.RunPreservesValid | api/comman/core.ts:24-41 | Over any event sequence, the map stays injective, holds only promises already issued, and its values are exactly the pending promises. |
| Dedup.ConcurrentCallsCollapse | api/comman/core.ts:34-40 | n calls under one key before any settlement invoke `fn` at most once (exactly once if the key was free). All n callers hold the same stored promise. The first call starts it and the others join. |
| Dedup.KeysAreIsolated | api/comman/core.ts:34-39 | Calls under two different free keys invoke `fn` twice and get two different promises. |
| Dedup.SettledKeyRestarts | api/comman/core.ts:38-40 | After its promise settles, a call under the same key invokes `fn` again and gets a fresh promise. |
| Dedup.ThrowLeavesNoEntry | api/comman/core.ts:38-39 | After a synchronous throw from `fn`, the next call under that key invokes `fn` again. |
| ApiEnum.TodosKeyRoundTrip | api/comman/api.enum.ts:27-32 | For a filter without '-', the pagination key parses back to (page, limit, filter, search-or-empty). |
| ApiEnum.TodosKeyInjective | api/comman/api.enum.ts:27-32 | Equal pagination keys mean equal page, limit and filter, and equal search-or-empty. |
| ApiEnum.TodosKeyAmbiguousWithDashedFilter | api/comman/api.enum.ts:32 | If a filter could contain '-', two different requests could share a key. |
| ApiEnum.SingleKeysInjective | api/comman/api.enum.ts:21-26 | Each of the createUser, createTodo, updateTodo and deleteTodo keys determines its argument. |
| ApiEnum.KeyFamiliesDisjoint | api/comman/api.enum.ts:21-32 | Keys of different helper families never coincide. |
| ApiEnum.TodoByIdInjective | api/comman/api.enum.ts:53 | Equal todo routes mean equal ids. |
| ApiEnum.QueryPairsOrdered | api/comman/api.enum.ts:60-64 | At most four pairs, one per parameter, whose names always keep the order page, limit, search, filter. |
| ApiEnum.QueryPairsLookup | api/comman/api.enum.ts:60-64 | Looking up page, limit, search or filter finds a value exactly when that parameter was truthy, and the value is its own: a page or limit of 0 and an empty search or filter are omitted. |
| ApiEnum.TodosWithParamsDecodes | api/comman/api.enum.ts:54-66 | The listing route is the collection path and "?" even with no parameters, and its query string parses back to exactly the appended pairs. |
| UrlEncode.FormEncode | api/comman/api.enum.ts:65 | The output uses only the characters form-urlencoding may emit, and is never shorter than the input. |
| UrlEncode.FormDecodeEncode | api/comman/api.enum.ts:65 | Decoding inverts the per-value encoding of `URLSearchParams.toString()`. |
| UrlEncode.FormEncodeInjective | api/comman/api.enum.ts:63-65 | Distinct values never share an encoding. |
| UrlEncode.QueryRoundTrip | api/comman/api.enum.ts:60-65 | A serialized query string parses back to exactly its names, values and order. |
| Text.ParseNatToString | api/comman/api.enum.ts:25-32 | The decimal numeral of a number reads back to that number. |
| Text.Trim | components/todos/TodoItem.tsx:62 | The result is a contiguous part of the input with no whitespace at either end. It is empty exactly when the input is all whitespace. |
| Text.TrimIdempotent | components/todos/AddTodoForm.tsx:19-23 | Trimming twice is trimming once. |
| Text.Utf16Length | components/todos/TodoItem.tsx:67-75 | `.length` counts UTF-16 code units: at least the number of code points and at most twice that. |
| Text.Utf16LengthBmp | components/todos/TodoItem.tsx:67-75 | `.length` equals the number of code points exactly when every code point lies in the Basic Multilingual Plane. |
| Text.TrimShortens | components/todos/TodoItem.tsx:67-79 | Trimming never increases the UTF-16 length. |
| Text.ContainsAt | api/user.ts:26 | `includes` holds exactly when the substring occurs at some index. |
| TodosApi.FilterName | api/todos.ts:34 | Filter names are non-empty and contain no '-'. |
| TodosApi.GetTodosPlan | api/todos.ts:40-59 | `callApi_getTodos` is an authenticated GET with no body. Its key parses back to the resolved (page, limit, filter, search-or-empty). Its path is the collection route, "?" and a query that parses back to the pairs built from the same resolved values. |
| TodosApi.GetTodosDefaults | api/todos.ts:43 | Omitting page, limit and filter is the same call as 1, 10 and "all". |
| TodosApi.EmptySearchIsNoSearch | api/todos.ts:43-53 | An absent search and "" give the same call. |
| TodosApi.SameListingKeySameRequest | api/todos.ts:45-53 | Two listing calls with the same key send the same request, so deduplication never merges different listings. |
| TodosApi.JoinedListingGetsItsOwnResult | api/todos.ts:45-58 | A caller that joins another listing call with the same key gets exactly the result its own request would have produced. |
| TodosApi.CreateTodoKeyedByTitleOnly | api/todos.ts:68 | Creates with one title share a key whatever their descriptions, while their bodies differ unless the descriptions agree. |
| TodosApi.CreateTodoKeyDeterminesTitle | api/todos.ts:68 | Creates with different titles never share a key. |
| TodosApi.UpdateTodoKeyedByIdOnly | api/todos.ts:91-95 | Two updates share a key, and likewise a PATCH route, exactly when their ids are equal, whatever the updates. |
| TodosApi.OperationKeysDisjoint | api/todos.ts:45-46 | The keys of a listing, a create, an update and a delete are pairwise distinct. |
| TodosApi.Execute | api/todos.ts:54-56 | An operation succeeds exactly when its helper gets an ok JSON response, and then returns the `data` field. Every failure is the helper's own, unchanged. |
| TodosApi.DeleteTodo | api/todos.ts:103-107 | A delete resolves with no value exactly when the DELETE to the todo's route gets an ok JSON response. It fails with the helper's message otherwise. |
| TodosApi.DeleteNeedsJsonBody | api/comman/core.ts:199 | An ok DELETE without a JSON body (204, say) rejects with the parser's message. |
| UserApi.GetUser | api/user.ts:18-31 | On success the result is `response.data`. A failure whose message contains "404" becomes no user. Exactly the other failures are rethrown, unchanged. |
| UserApi.CreateUser | api/user.ts:36-38 | Success exactly when the POST succeeds; the payload is dropped, and a failure is passed on unchanged. |
| UserApi.Compose | api/user.ts:43-58 | A user from the first get is returned after one call. No user leads to a create and a second get. No user on the second get fails with "Failed to create user". Failures propagate unchanged. A create happens exactly when the first get found no user. |
| UserApi.EnsureUser | api/user.ts:43-58 | An existing user from the first get is returned after one call. When the first get reports none, a failed create is passed on. After a successful create, the second get's user is returned; if it finds none the result is "Failed to create user", and its failure is passed on. The trace lists exactly the calls made. A create happens exactly when the first get reported no user, and a first-get failure is the helper's error. |
| UserApi.NotFoundWithErrorFieldIsRethrown | api/user.ts:24-30 | A 404 with `{"error":"Not found"}` is rethrown as "Not found" and no create is attempted. |
| UserApi.NotFoundWithoutJsonIsRethrown | api/user.ts:24-30 | A 404 whose body does not parse is rethrown as "Request failed" and no create is attempted. |
| UserApi.NotFoundWithoutErrorFieldCreates | api/user.ts:26 | A 404 whose JSON has no `error` does lead to a create. |
| UserApi.GetUserByStatus | api/user.ts:24-30 | With not-found decided by status, every 404 means no user. Other failures are rethrown unchanged, and success returns `data`. |
| UserApi.EnsureUserByStatus | api/user.ts:43-58 | With the status-based get, any 404 from the first get leads to a create. Otherwise the composition returns, creates, fetches again and passes failures on exactly as `UserApi.EnsureUser` does. |
| UserApi.ByStatusAgreesElsewhere | api/user.ts:24-30 | The as-written get and the status-based get agree on every response that is not a 404 and whose message does not mention "404". |
| Pagination.GetPageNumbers | components/shared/paginationComp.tsx:17-49 | The loops compute the branch-by-branch window: 1..T when T ≤ 5; [1,2,3,4,-1,T] when c ≤ 3; [1,-1,T-3..T] when c ≥ T-2; otherwise [1,-1,c-1,c,c+1,-1,T]. |
| Pagination.AllPages | components/shared/paginationComp.tsx:21-24 | The loop pushes exactly the pages 1..T in order. |
| Pagination.LeadingPages | components/shared/paginationComp.tsx:26-31 | The loop and pushes give [1,2,3,4,-1,T]. |
| Pagination.TrailingPages | components/shared/paginationComp.tsx:32-37 | The pushes and loop give [1,-1,T-3,T-2,T-1,T]. |
| Pagination.WindowWellFormed | components/shared/paginationComp.tsx:17-49 | For T > 1, the window has at most 7 entries and runs from 1 to T. Pages are strictly increasing in 1..T, and neighbouring pages are consecutive. An ellipsis sits only between two pages with a gap and never at an end. For T ≤ 5 the window is 1..T, and it contains c whenever 1 ≤ c ≤ T. |
| Pagination.WindowCovers | components/shared/paginationComp.tsx:17-49 | Every page 1..T is listed or lies behind an ellipsis between its listed neighbours. |
| Pagination.RenderedWindow | components/shared/paginationComp.tsx:15-49 | Nothing is rendered exactly when T ≤ 1. A rendered window is well formed, covers every page and lists the current one. |
| Pagination.ArrowsStayInRange | components/shared/paginationComp.tsx:53-90 | Prev is enabled exactly when c > 1 and Next exactly when c < T. Their targets stay in 1..T. |
| TodosPage.FetchParams | app/todos/page.tsx:77-82 | The fetch sends the current page, 6 per page and the filter. The search is sent exactly when non-empty. |
| TodosPage.CriteriaChangesResetPage | app/todos/page.tsx:241-243 | Choosing a filter or editing the search sets only that field and resets the page to 1, so the next fetch asks for page 1 (search at 265-267). |
| TodosPage.ClearSearchKeepsPage | app/todos/page.tsx:271-274 | ✕ empties the search and keeps the page, and the next fetch differs only by having no search. |
| TodosPage.ArrowsAgreeWithPagination | app/todos/page.tsx:332-359 | Whenever the arrows are shown, Next lands in 1..totalPages: one page on from below the last, unchanged on the last, and back to the last page from past it. Prev goes back one page, unchanged on page 1, so from past totalPages + 1 it stays past the last page. Within 1..totalPages both land exactly where the pagination control's arrows point, and disabled arrows change nothing. |
| TodosPage.PagePastLastIsReachable | app/todos/page.tsx:77-92 | The page can lie past the last one: page 3 of a three-page listing, followed by a fetch reporting two pages, leaves page 3 of 2 with both arrows shown and leading to page 2. |
| TodosPage.FetchOutcome | app/todos/page.tsx:83-92 | A finished fetch ends loading. A success shows its todos and sets total and totalPages from the listing. A failure empties the list and keeps the counts. Nothing else changes. |
| TodosPage.PageStaysPositive | app/todos/page.tsx:40-42 | No sequence of clicks, typing or fetch outcomes brings the page below 1. |
| TodosPage.ReachablePagesPositive | app/todos/page.tsx:38-45 | The initial state is page 1, "all" and an empty search, and every reachable fetch asks for a page of at least 1. |
| TodoItem.CheckEdit | components/todos/TodoItem.tsx:62-75 | Checks run in order and the first failure wins: (1) empty title exactly when the title is all whitespace; (2) too long exactly when the untrimmed title exceeds 200 UTF-16 units; (3) description too long exactly when the title passed and the description exceeds 1000. |
| TodoItem.Save | components/todos/TodoItem.tsx:61-86 | A rejected save alerts and changes nothing. An accepted one calls `onEdit` with the id and both trimmed fields. It leaves edit mode only if `onEdit` succeeded, always ends with `isSaving` false, and changes nothing else. |
| TodoItem.SentFieldsWithinLimits | components/todos/TodoItem.tsx:62-79 | What `onEdit` receives passes every check again: a non-blank title with no surrounding whitespace, within both limits. |
| TodoItem.CancelDiscardsEdits | components/todos/TodoItem.tsx:55-59 | Edit, type anything, then cancel returns the row to its mounted state (cancel at 88-92). |
| TodoItem.ToggleArgument | components/todos/TodoItem.tsx:38 | `onToggle` gets the todo's id and the opposite of its completion flag. |
| AddTodoForm.TypeTitle | components/todos/AddTodoForm.tsx:52-56 | The title is stored. The form is expanded afterwards exactly when it was before or the value is non-empty. Nothing else changes. |
| AddTodoForm.TypingNeverCollapses | components/todos/AddTodoForm.tsx:54-55 | Once expanded, no sequence of title edits collapses the form. |
| AddTodoForm.Submit | components/todos/AddTodoForm.tsx:16-30 | A whitespace-only title submits nothing. Otherwise `onAdd` gets both trimmed fields and `isSubmitting` ends false. Success clears and collapses the form. Failure keeps the fields, and its error propagates out of `handleSubmit`, which rejects exactly when `onAdd` was called and rejected. |
| AddTodoForm.EnabledSubmitCallsOnAdd | components/todos/AddTodoForm.tsx:88 | The button is enabled exactly when no submission is running and a submit would call `onAdd`, and the title sent is never blank. |
| UserProfile.InitNames | components/user/UserProfileComp.tsx:25-30 | With a user, each name is the provider's value or "" and nothing else changes. Without a user nothing changes. |
| UserProfile.ErrorText | components/user/UserProfileComp.tsx:133-134 | The message is the first error entry's message when present and non-empty, otherwise the fallback. |
| UserProfile.CheckPassword | components/user/UserProfileComp.tsx:91-110 | In order: (1) "Please enter your current password." exactly when it is empty; (2) "Passwords do not match." exactly when it is given and the two differ; (3) the 8-character message exactly when they match and the password is under 8 UTF-16 units. Otherwise it passes. |
| UserProfile.UpdatePassword | components/user/UserProfileComp.tsx:87-139 | Without a user nothing happens. A failed check shows its message and calls nothing. Otherwise the provider gets (new, current, false). Success clears the three fields and reports success. Failure keeps them and shows the provider's message or the fallback. Loading ends false. |
| UserProfile.PasswordAttemptAlwaysReports | components/user/UserProfileComp.tsx:122-138 | Every attempt that reaches the provider ends with a non-empty message, which is a success notice exactly when the provider succeeded. |
| UserProfile.UpdateProfile | components/user/UserProfileComp.tsx:61-85 | With a user, the current names are sent and loading ends false. Success shows "Profile updated successfully!". Failure shows the first provider error's message, falling back to "Failed to update profile.". Only loading and the message change. |

## Left out

- Rendering, styling and JSX of every component, and the navigation, footer, landing and user pages: presentation only.
- `fetch`, `res.json()` and `JSON.stringify`: a response is a status plus a parsed or unparsable body, and success payloads are opaque type parameters.
- A JSON `null` body on a non-ok response, which makes the code throw a TypeError while reading `.error`: the body model has no null case.
- `console.log` / `console.warn` / `console.error` calls: logging only.
- The promise itself in `dedupedFetch`: the map holds a request id, and the outcome a settled promise delivers to its joiners is left out. Settlement is a `Settle` event.
- The dedup state and the network are never threaded together: each todo operation is a plan whose key the `Dedup` state machine consumes.
- The async `fn` of each todo operation never throws synchronously. The `fnThrows` flag of `Dedup.Call` covers only a general synchronous `fn`.
- page, limit and id are natural numbers: negative, fractional and non-finite JavaScript numbers are not modelled.
- ApiEnum.TodosKeyRoundTrip, ApiEnum.TodosKeyInjective, ApiEnum.SingleKeysInjective and ApiEnum.TodoByIdInjective: they hold for unbounded naturals. JavaScript numbers stop being exact at 2^53, where distinct page, limit or id values collapse into one number. From 1e21 on, `${n}` prints exponent notation ("1e+21"), which Text.NatToString does not model.
- Lone surrogates in strings are not modelled: characters are Unicode scalar values, and UTF-16 length counts two units above U+FFFF.
- AddTodoForm.Submit: its Failure branch is a general `onAdd`. The app's only `onAdd`, `handleAddTodo` (app/todos/page.tsx:102-115), catches every error. So in the app `onAdd` always resolves, and a failed create still clears and collapses the form. `handleAddTodo` is not part of this model.
- TodoItem.Save: its Failure branch is a general `onEdit`. The app's only `onEdit`, `handleEditTodo` (app/todos/page.tsx:146-163), catches every error and shows an alert. So in the app `onEdit` always resolves, and a failed update still leaves edit mode. `handleEditTodo` is not part of this model.
- UserApi.GetUserRequest and UserApi.CreateUserRequest: they carry no contract of their own, because the headers they send are those stated by Core.BuildRequest.
- `callApi_ensureUser`'s three calls are not deduplicated in the code, and the `createUser` dedup key is defined but unused by the user operations. Only its injectivity and disjointness are stated.
- api/admin.ts: it refers to dedup keys and routes the route table does not define.
- hooks/useUserRegistration.ts, AlertProvider.tsx, hooks/useAlert.ts and alertModal.tsx: React effect lifecycle and modal state around modelled operations; the confirm dialog relies on timers.
- utils/auth/TokenBridge.tsx and providers/ClerkTokenProvider.tsx: they only install or remove the global token getter, which appears as `Core.TokenEnvironment`.
- The identity provider's `update`, `updatePassword` and `setProfileImage`: foreign calls, given by their outcome.
- `handleImageUpload` (components/user/UserProfileComp.tsx:34-59): its message rule is `UserProfile.ErrorText` with its own fallback, and its file input is I/O.
- In app/todos/page.tsx, the scheduling of `fetchTodos` by effects, the sign-in redirect, and the handlers `handleAddTodo`, `handleToggleTodo`, `handleEditTodo` and `handleDeleteTodo`: each calls a todo operation and refetches, and catches every error. Each shows an error alert on failure and, except `handleToggleTodo`, a success alert on success. Alerts are presentation. Fetching is the `FetchStarted` / `FetchDone` events.
- `handleDelete` with its `window.confirm`, and the `isDeleting` and `isToggling` flags of TodoItem.tsx: user dialog and presentation state.
- The service worker registration, build.js, ecosystem.config.js, next.config.ts and the type declarations: I/O and configuration.

## Findings

| source | as written | input that shows it | evidently intended | confidence | as-written member | corrected member |
|---|---|---|---|---|---|---|
| api/user.ts:26 | "user does not exist" is detected by "404" occurring in the error message. The shared helper's message is the body's `error` when present (api/comman/core.ts:117-119), or "Request failed" when the body is not JSON. | The first get returns status 404 with body `{"error":"Not found"}`. The message is "Not found", so `callApi_ensureUser` rethrows it and never creates the user. | The comment at that branch ("User doesn't exist (404)") and the get-or-create composition say any 404 from the user route means "no user yet", so creation follows. | medium; not executed | UserApi.NotFoundWithErrorFieldIsRethrown | UserApi.EnsureUserByStatus |
