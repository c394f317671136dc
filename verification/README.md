# Book-rental client: decision logic in Dafny

This project models the decision logic of a SwiftUI client for a book-rental service. The app lets a user browse a catalog, rent a book, pay on an embedded checkout page, poll until the payment settles, and view rentals and transaction history. Everything here is immutable data and pure functions. The poll loop is also written as a method whose loop is proved equal to the function.

- **Records** (`book.dfy`, `rental.dfy`, `transaction.dfy`, `history.dfy`, `user.dfy`). These cover book availability and display strings, and the book's JSON key mapping with a decode/encode round trip. They also cover the rental decoder's date defaults, payment-status parsing, and the history entry's price grouping and date fallbacks.
- **API client** (`api.dfy`). This covers request construction (URL, headers, body), which status codes each call accepts, how each failure becomes an error, and when the bearer token changes. The transport is an input: a `URLSession` error, a non-HTTP response, or a status code with a body that did or did not decode.
- **View models** (`app_view_model.dfy`, `book_content_view_model.dfy`). Each async action is a function from the state before it to the state after it.
- **Payment polling** (`payment_polling.dfy`). The loop is a function of the sequence of replies it receives. Its result is the final status, the two sheet flags, the number of requests and the number of 3-second sleeps.
- **Screens** (`book_detail.dfy`, `book_list.dfy`, `rentals_view.dfy`, `history_view.dfy`, `web_view.dfy`). These cover the rent-duration stepper and rent gating, the search filters, the conversion of a rented book into a row, badge colours, and the web view's navigation and reload rules.
- **Shared helpers.** `wrappers.dfy` holds `Option` and `Result`. `text.dfy` holds ASCII case folding, substring search and decimal text. `json.dfy` holds keyed-container decoding. `search.dfy` holds `Array.filter` and the proof that the ordered selection it returns is the only one possible.

Foreign behaviour is passed in as parameters:
- `URL(string:)` is `isValidUrl` or `parseUrl`.
- Date formatters are `parse: string -> Option<int>`, with dates as whole seconds.
- `Date()` is `now`. Within one call, the source may read the clock more than once (for example, once for each date default). The model collapses those reads into the single instant `now`.
- `Double(itemPrice)` followed by `Int(...)` is `parsePrice`.

Several behaviours of the program are worth stating plainly, because the model reproduces them:
- A history entry's unparsable date falls back to the current time.
- No error is specific to a 401 response.
- `URLSession` errors pass through unwrapped, and `APIError.networkError` is never constructed.
- Nothing refreshes the catalog on settlement except UI handlers.
- The view model never fills `rentals`, so no book ever counts as rented on the detail page.
- JSON integers are decoded into Swift's 64-bit `Int`, so a number outside its range fails decoding as corrupted data.

`AppViewModel.login` assigns a `LoginResponse` to `currentUser: User?` (ViewModels/AppViewModel.swift:21), which does not type-check. The model stores the response's `user`, and `register` stores `trimmedUser`. `Rental`'s memberwise initializer is the datatype constructor `Rentals.Rental`, which stores each argument unchanged.

## Model

| member | source | states |
|---|---|---|
| Books.AvailabilityCharacterised | rental-frontend-swift/Models/Book.swift:30-32 | A book is available iff its status is exactly "available" and it is not rented; a rented book is never available, whatever its status |
| Books.Author | rental-frontend-swift/Models/Book.swift:35 | The author string is "Lender #" followed by text that reads back as the lender id |
| Books.AuthorIdentifiesLender | rental-frontend-swift/Models/Book.swift:35 | Two books show the same author iff they have the same lender id |
| Books.PreviewContent | rental-frontend-swift/Models/Book.swift:37 | The preview is the whole description, uncut |
| Books.FullContent | rental-frontend-swift/Models/Book.swift:38 | The full content is "Full content for " followed by the title, which can be recovered from it |
| Books.JsonKeysCharacterised | rental-frontend-swift/Models/Book.swift:16-28 | Only the title is renamed (to "name"); every other field uses its property name, no two fields share a key, and "title" is not a key |
| Books.DecodedBookRepresentable | rental-frontend-swift/Models/Book.swift:3-28 | Every decoded book has an id, a lender id and a minimum rent that fit in a 64-bit Int |
| Books.EncodedField | rental-frontend-swift/Models/Book.swift:3-28 | The encoder writes every field under its JSON key, and writes the minimum rent only when it is present |
| Books.DecodeBookReadsOnlyFieldKeys | rental-frontend-swift/Models/Book.swift:16-28 | Two objects that agree on the eleven field keys decode to the same book or the same error |
| Books.EncodedRoundTrip | rental-frontend-swift/Models/Book.swift:3-28 | A book whose integers fit in a 64-bit Int decodes back from its encoding unchanged |
| Books.DecodeEncodeRoundTrip | rental-frontend-swift/Models/Book.swift:3-28 | Decoding the object the synthesised encoder writes gives back the same book iff its integers fit in a 64-bit Int; otherwise decoding fails |
| Books.TitleReadFromName | rental-frontend-swift/Models/Book.swift:16-18 | A decoded title is the string under "name", and a "title" key has no effect on decoding |
| Books.MinimumRentOptional | rental-frontend-swift/Models/Book.swift:9 | A decoded book has no minimum rent iff "minimumRent" is missing or null |
| Books.FormattedRentedDate | rental-frontend-swift/Models/Book.swift:54-64 | The rented date is rendered when it parses, and returned unchanged when it does not |
| History.IdIsTransactionId | rental-frontend-swift/Models/TransactionHistory.swift:13 | An entry's identity is its transaction id |
| History.FormattedStartDate | rental-frontend-swift/Models/TransactionHistory.swift:15-19 | The start date is the parsed value, or the current time when parsing fails |
| History.FormattedEndDate | rental-frontend-swift/Models/TransactionHistory.swift:21-25 | The end date is the parsed value, or the current time when parsing fails |
| History.GroupRemovesToDigits | rental-frontend-swift/Models/TransactionHistory.swift:40-46 | Deleting the "." separators from a grouped digit string gives the digits back |
| History.GroupIsWellGrouped | rental-frontend-swift/Models/TransactionHistory.swift:40-46 | The leading group has one to three digits, and every separator is followed by exactly three digits and then the end or another separator |
| History.GroupedNatural | rental-frontend-swift/Models/TransactionHistory.swift:40-46 | The grouped form of n reads back as n, is well grouped, and starts with 0 only for n = 0 |
| History.GroupedNegative | rental-frontend-swift/Models/TransactionHistory.swift:40-46 | A negative number is a minus sign followed by the grouped form of its magnitude |
| History.FormattedPrice | rental-frontend-swift/Models/TransactionHistory.swift:27-32 | An unparsable price is returned verbatim; a parsed one is "Rp " followed by the grouped integer part |
| History.FormattedPriceReadsBack | rental-frontend-swift/Models/TransactionHistory.swift:27-32 | After "Rp ", a parsed non-negative price is well grouped and its digits are the decimal form of the price |
| History.FiftyThousand | rental-frontend-swift/Models/TransactionHistory.swift:40-46 | 50000 groups as "50.000" and 999 as "999" |
| Rentals.DecodeDateOr | rental-frontend-swift/Models/Rental.swift:38-50 | A date key fails only when it holds a non-string; a parsable string is used as parsed; missing, null or unparsable gives the default |
| Rentals.DecodeRental | rental-frontend-swift/Models/Rental.swift:29-53 | Decoding succeeds iff every field decodes, and the id, book id, user id and active flag are read from their own keys |
| Rentals.RequiredKeys | rental-frontend-swift/Models/Rental.swift:29-53 | A missing "id", "bookId", "userId" or "isActive" makes decoding fail |
| Rentals.DateDefaults | rental-frontend-swift/Models/Rental.swift:38-50 | A missing or unparsable rented date becomes now and a missing or unparsable expiry becomes now + 604800 s; parsable dates are kept |
| Rentals.MinimalObjectDecodes | rental-frontend-swift/Models/Rental.swift:29-53 | An object with only the four required fields decodes iff its three integers fit in a 64-bit Int, and then gets both date defaults |
| Transactions.FromRawValue | rental-frontend-swift/Models/Transaction.swift:9-13 | A parsed status is the case whose raw value is the input string |
| Transactions.RawValueRoundTrip | rental-frontend-swift/Models/Transaction.swift:9-13 | Parsing succeeds exactly for "pending", "settlement" and "canceled", and inverts the raw value of every case |
| Transactions.MatchingIsExact | rental-frontend-swift/Models/Transaction.swift:10-12 | "Settlement", "PENDING" and "cancelled" do not parse |
| Transactions.UnknownStatusReachesCallers | rental-frontend-swift/Models/Transaction.swift:3-7 | A status reply can carry a string that is not a payment status |
| Api.SetBaseURL | rental-frontend-swift/Services/APIService.swift:32-34 | Setting the base URL replaces the rent base URL and leaves the unused base URL and the token alone |
| Api.SetAuthToken | rental-frontend-swift/Services/APIService.swift:36-38 | Setting the token changes only the token |
| Api.CreateRequest | rental-frontend-swift/Services/APIService.swift:40-57 | A request exists iff the rent base URL plus path is a valid URL; its headers are Content-Type application/json, plus "Bearer <token>" exactly when a token is held; the body is attached exactly as given |
| Api.BaseUrlNeverUsed | rental-frontend-swift/Services/APIService.swift:41 | The request is the same whatever `baseURL` and `useRentURL` are |
| Api.BearerHeaderIffToken | rental-frontend-swift/Services/APIService.swift:46-54 | A request carries Authorization iff a token is held, and a body iff it is login, register or rent |
| Api.RentPathCarriesBookId | rental-frontend-swift/Services/APIService.swift:142 | The rent path is "/rent/item/" followed by text that reads back as the book id |
| Api.StatusPathCarriesOrderId | rental-frontend-swift/Services/APIService.swift:182 | The status path is "/rent/transaction-status/" followed by the order id verbatim |
| Api.AccessPathCarriesBookId | rental-frontend-swift/Services/APIService.swift:229 | The access path is "/items/", then the book id (which reads back), then "/access" |
| Api.Perform | rental-frontend-swift/Services/APIService.swift:59-241 | A call succeeds iff the URL is valid, the response is HTTP with an accepted status, and the body decodes; it gives invalidURL, the session error, or invalidResponse exactly in their cases |
| Api.AcceptedStatusCodes | rental-frontend-swift/Services/APIService.swift:158-169 | With a decodable body, rent succeeds on 200 or 201 and every other call only on 200 |
| Api.UnauthorizedIndistinguishable | rental-frontend-swift/Services/APIService.swift:122-128 | Listing books gives the same error for 401 as for any other non-200 status |
| Api.DecodeFailureMapping | rental-frontend-swift/Services/APIService.swift:171-196 | An undecodable body becomes `decodingError` for login, register, list and rent, and an unwrapped decoding error for the other calls |
| Api.CallLogin | rental-frontend-swift/Services/APIService.swift:59-81 | A successful login installs the returned token; a failed one leaves the client unchanged |
| Api.CallRegister | rental-frontend-swift/Services/APIService.swift:83-105 | A successful registration installs the returned token; a failed one leaves the client unchanged |
| Api.TokenChangesOnlyOnSuccess | rental-frontend-swift/Services/APIService.swift:69-80 | The token changes only on a 200 response whose body decoded, and then to that body's token |
| AppViewModel.InitialSignedOut | rental-frontend-swift/ViewModels/AppViewModel.swift:5-12 | A fresh view model has no user, no error, no payment link or order, and none of its requests carries a bearer header |
| AppViewModel.BeginRequest | rental-frontend-swift/ViewModels/AppViewModel.swift:17-18 | While a request is in flight, the state is loading with no error and otherwise unchanged |
| AppViewModel.FetchBooks | rental-frontend-swift/ViewModels/AppViewModel.swift:43-45 | On success the returned list replaces the books wholesale; on failure nothing changes and the error is returned |
| AppViewModel.Login | rental-frontend-swift/ViewModels/AppViewModel.swift:16-28 | Ends not loading. On success it stores the user and token; on failure the user, client and books are unchanged and the error is set. Rentals, the payment link, the order and rented books are untouched |
| AppViewModel.LoginErrorReset | rental-frontend-swift/ViewModels/AppViewModel.swift:16-28 | Ends without error iff both calls succeed. A failed catalog fetch after authentication keeps the user, keeps the books and sets the error |
| AppViewModel.Register | rental-frontend-swift/ViewModels/AppViewModel.swift:30-41 | Ends not loading. On success it stores the user and token with no error; on failure it sets the error and leaves user and client alone. It does not fetch books |
| AppViewModel.RentBook | rental-frontend-swift/ViewModels/AppViewModel.swift:47-65 | A successful rent sets the payment link and order id. A failed rent leaves both unchanged and sets the error. A failed follow-up fetch keeps the link and order and also sets the error |
| AppViewModel.FetchRentedBooks | rental-frontend-swift/ViewModels/AppViewModel.swift:67-75 | Ends not loading. Success replaces the rented books and keeps the earlier error; failure keeps the rented books and sets the error |
| AppViewModel.RentedRefreshKeepsStaleError | rental-frontend-swift/ViewModels/AppViewModel.swift:67-75 | An earlier error survives a successful refresh of rented books |
| AppViewModel.RentalsNeverChange | rental-frontend-swift/ViewModels/AppViewModel.swift:5-12 | No action ever changes the `rentals` list |
| AppViewModel.StepKeepsRentals | rental-frontend-swift/ViewModels/AppViewModel.swift:16-75 | No single action (login, register, fetch books, rent, fetch rented books) changes `rentals` |
| AppViewModel.RunKeepsRentals | rental-frontend-swift/ViewModels/AppViewModel.swift:16-75 | No sequence of actions changes `rentals` |
| BookContent.FirstRequestLink | rental-frontend-swift/ViewModels/BookContentViewModel.swift:5-33 | A fresh reading view holds a link after its first request iff a parsable link arrived, and it is that link |
| BookContent.GetBookAccess | rental-frontend-swift/ViewModels/BookContentViewModel.swift:11-33 | Ends not loading. A parsable link is stored with no error; an unparsable link gives invalidResponse; an API failure gives its error. In both failure cases the previous link is kept |
| BookContent.ErrorClearedBeforeRequest | rental-frontend-swift/ViewModels/BookContentViewModel.swift:11-33 | The action ends without error iff a usable link arrived, so an earlier error is always cleared |
| PaymentPolling.Poll | rental-frontend-swift/Views/PaymentWebView.swift:63-95 | Requests never exceed the replies. Each flag is raised iff its status was reached. The loop ends on a terminal status or an error with one sleep fewer than its requests, or is still polling with one sleep per request |
| PaymentPolling.FlagsExclusive | rental-frontend-swift/Views/PaymentWebView.swift:73-80 | Success and canceled are never both raised |
| PaymentPolling.PollFirst | rental-frontend-swift/Views/PaymentWebView.swift:66-88 | An error stops the loop pending; settlement or canceled stops it with its flag; any other reply costs one request and one sleep |
| PaymentPolling.PollAt | rental-frontend-swift/Views/PaymentWebView.swift:66-88 | Once i non-stopping replies have passed, the reply at index i ends the run with i+1 requests and i sleeps, or adds one more request and sleep |
| PaymentPolling.PollSkipsPending | rental-frontend-swift/Views/PaymentWebView.swift:84-88 | Each leading non-stopping reply adds exactly one request and one sleep |
| PaymentPolling.StopsAtFirstStoppingReply | rental-frontend-swift/Views/PaymentWebView.swift:66-92 | The loop stops at the first error, settlement or cancellation at index k, after k+1 requests and k sleeps. An error leaves the status pending with no flag |
| PaymentPolling.NeverStops | rental-frontend-swift/Views/PaymentWebView.swift:66-88 | With no stopping reply, the loop is still pending after one request and one sleep per reply |
| PaymentPolling.UnknownStatusKeepsPolling | rental-frontend-swift/Views/PaymentWebView.swift:69-88 | An unrecognised status leaves the status pending and polling continues after one sleep |
| PaymentPolling.PendingPendingSettlement | rental-frontend-swift/Views/PaymentWebView.swift:63-95 | [pending, pending, settlement] gives settlement with the success flag, 3 requests and 2 sleeps |
| PaymentPolling.PendingCanceled | rental-frontend-swift/Views/PaymentWebView.swift:63-95 | [pending, canceled] gives canceled with the canceled flag, 2 requests and 1 sleep |
| PaymentPolling.StartPolling | rental-frontend-swift/Views/PaymentWebView.swift:63-95 | The step-by-step loop computes exactly what the function does |
| BookDetail.IsRentedIffActiveRental | rental-frontend-swift/Views/BookDetailView.swift:13-17 | The book is rented iff some rental for its id is active |
| BookDetail.OnAppear | rental-frontend-swift/Views/BookDetailView.swift:179-181 | The stepper starts at the book's minimum rent when it has one, and at 1 otherwise |
| BookDetail.ApplyTap | rental-frontend-swift/Views/BookDetailView.swift:89-105 | Plus adds exactly one; minus subtracts one only above the minimum and otherwise does nothing |
| BookDetail.StepperKeepsMinimum | rental-frontend-swift/Views/BookDetailView.swift:89-105 | From the minimum or above, no tap sequence goes below the minimum. The result is at most the start plus the increments and at least the start minus the decrements |
| BookDetail.IncrementsUnbounded | rental-frontend-swift/Views/BookDetailView.swift:103-105 | n increments raise the duration by exactly n |
| BookDetail.StepperShown | rental-frontend-swift/Views/BookDetailView.swift:83 | The stepper is shown iff the status is exactly "available" and the book is not rented |
| BookDetail.RentButton | rental-frontend-swift/Views/BookDetailView.swift:121-135 | The button exists iff the book is not rented and is available, and is enabled iff the duration is at least the minimum |
| BookDetail.RentButtonBelowStepper | rental-frontend-swift/Views/BookDetailView.swift:83-135 | The rent button is never shown without the stepper, and is hidden whenever the stepper is |
| BookDetail.RentButtonEnabledAfterAppear | rental-frontend-swift/Views/BookDetailView.swift:122-133 | After the page appears, any tap sequence leaves a shown rent button enabled |
| BookDetail.ContentShown | rental-frontend-swift/Views/BookDetailView.swift:54-78 | Full content is shown iff the book is rented; otherwise the preview (the description) is shown |
| BookDetail.ReadMoreButton | rental-frontend-swift/Views/BookDetailView.swift:71-76 | "Read More..." appears under a preview longer than 100 characters and is enabled iff the book is available |
| BookDetail.PaymentSheetOpens | rental-frontend-swift/Views/BookDetailView.swift:154-158 | The sheet opens iff a payment link is held and parses as a URL |
| BookDetail.SheetOrderId | rental-frontend-swift/Views/BookDetailView.swift:172 | The payment page gets the held order id, or "" when none is held |
| BookDetail.ConfirmRent | rental-frontend-swift/Views/BookDetailView.swift:141-173 | Ends not loading. After a successful rent the sheet opens iff the new link parses and shows the new order; after a failed rent the earlier link and order stay, the error is set, and the sheet opens iff the earlier link parses |
| BookDetail.SheetShowsNewOrder | rental-frontend-swift/Views/BookDetailView.swift:141-173 | After a successful rent the sheet opens iff the new link parses, and the payment page gets the new order id |
| BookDetail.FailedRentReopensEarlierLink | rental-frontend-swift/Views/BookDetailView.swift:148-158 | A rent that fails after an earlier success still opens the sheet, with the earlier link and order and the error set |
| BookDetail.NoBookEverRented | rental-frontend-swift/Views/BookDetailView.swift:13-17 | From a fresh app, after any sequence of actions, no book counts as rented |
| BookList.FilteredBooksCharacterised | rental-frontend-swift/Views/BookListView.swift:13-22 | An empty search returns the catalog. Otherwise the result is an ordered subsequence holding exactly the books whose title, category or author contains the text, ignoring case, with one entry per matching position |
| BookList.FilteredBooksIdempotent | rental-frontend-swift/Views/BookListView.swift:13-22 | Filtering the result again with the same text changes nothing |
| BookList.MatchesIgnoresCase | rental-frontend-swift/Views/BookListView.swift:17-21 | Filtering the catalog by the lower-cased text keeps exactly the books that filtering by the text itself keeps |
| BookList.SearchIgnoresCase | rental-frontend-swift/Views/BookListView.swift:13-22 | For every search text, including the empty one, lower-casing it does not change the result |
| RentalsView.FilteredRentedBooksCharacterised | rental-frontend-swift/Views/RentalsView.swift:7-15 | An empty search returns all rented books. Otherwise the result is the ordered selection of those whose name or category contains the text |
| RentalsView.ToBook | rental-frontend-swift/Views/RentalsView.swift:29-41 | The converted book copies every field, takes the name as its title, is marked rented, and so is never available |
| RentalsView.RentedDate | rental-frontend-swift/Views/RentalsView.swift:73-79 | The rental moment is the parsed date, or now when it does not parse |
| RentalsView.ToRental | rental-frontend-swift/Views/RentalsView.swift:46-53 | The row's id and book id are the rented book's id; it is active; the user is the current user's id or 0; expiry is the minimum rent times 86400 s after the start |
| RentalsView.RowMatchesBook | rental-frontend-swift/Views/RentalsView.swift:29-53 | The row refers to the converted book. With an unparsable date it expires the minimum rent after now |
| HistoryView.FilteredTransactionsCharacterised | rental-frontend-swift/Views/HistoryView.swift:7-14 | An empty search returns the history. Otherwise the result keeps exactly the entries whose item name contains the text, ignoring case, in server order |
| HistoryView.BadgeColorCharacterised | rental-frontend-swift/Views/HistoryView.swift:88-99 | Green, orange and red belong to lower-cased settlement, pending and canceled; every other status is gray; statuses equal up to case share a colour |
| HistoryView.PaymentStatusColors | rental-frontend-swift/Views/HistoryView.swift:88-99 | No payment status is gray |
| HistoryView.CapitalisedStatusColors | rental-frontend-swift/Views/HistoryView.swift:89-95 | "SETTLEMENT" is green and "Canceled" is red |
| WebView.DeletingFragment | rental-frontend-swift/Views/WebView.swift:122-130 | The result has no "#", is a prefix of the URL, equals it when there is no fragment, and otherwise stops right at the "#" |
| WebView.DeletingFragmentIdempotent | rental-frontend-swift/Views/WebView.swift:122-130 | Removing the fragment twice is removing it once |
| WebView.FragmentOnlyRemoved | rental-frontend-swift/Views/WebView.swift:123-129 | A URL with any fragment strips back to the URL without it |
| WebView.DecidePolicy | rental-frontend-swift/Views/WebView.swift:73-100 | A navigation is cancelled (and loaded in place) iff the initial load is done, it has no target frame, and it is not the current page up to fragment. The flag becomes set unless the navigation was to the current page |
| WebView.FragmentNavigationAllowed | rental-frontend-swift/Views/WebView.swift:77-83 | A navigation within the current page is allowed and leaves the initial-load flag unchanged |
| WebView.InitialNavigationAllowed | rental-frontend-swift/Views/WebView.swift:85-90 | Before the initial load, every navigation is allowed |
| WebView.FirstUpdateReloadsOnPageChange | rental-frontend-swift/Views/WebView.swift:4-63 | A fresh model is not loading, cannot go back and has an empty title; its first update reloads iff the new URL names a different page |
| WebView.UpdateUIView | rental-frontend-swift/Views/WebView.swift:51-63 | Reloads iff the view shows a page, it differs from the new URL beyond fragments, and the model does not hold the new URL; a reload records the URL |
| WebView.FragmentChangeNeverReloads | rental-frontend-swift/Views/WebView.swift:51-63 | A URL that differs only in its fragment never reloads, and a view with no page never reloads |
| WebView.DidStart | rental-frontend-swift/Views/WebView.swift:102-105 | Starting a navigation sets loading and changes nothing else |
| WebView.DidFinish | rental-frontend-swift/Views/WebView.swift:107-113 | Finishing clears loading and copies in back-navigation, the title (or "") and the URL |
| WebView.DidFail | rental-frontend-swift/Views/WebView.swift:115-118 | Failing clears loading and changes nothing else |

## Left out

- SwiftUI bodies, layout, sheets, alerts and navigation are left out, and so are `ContentView`, the sidebar, the login, account, card, payment-result and reading views, and the app entry point. They are presentation with no stateable behaviour beyond bindings.
- `URLSession`, `JSONEncoder`/`JSONDecoder`, `WKWebView` and `URL(string:)` are foreign calls. They appear as inputs: the transport outcome, whether a body decoded, URL validity and parsing. Encoding a request body is taken never to fail.
- Date and number formatters are parameters, with dates as integer seconds. `Date`'s floating-point time is not modelled.
- `Double(itemPrice)` and the truncating `Int(...)` are one abstract parse. The trap that `Int(...)` raises on a non-finite or out-of-range value is not modelled.
- BookDetail.ApplyTap: integers are unbounded, so the trap of `rentDuration += 1` at `Int.max` is not modelled. The stepper would need about 9.2e18 taps to reach it.
- Ids, rent lengths and status codes passed into the model are unbounded integers. Swift's 64-bit `Int` bounds are enforced only where JSON decoding reads an integer (`Json.DecodeInt`, `Json.DecodeIntIfPresent`).
- Rentals.DecodeRental: the two date defaults share one `now`. The source reads `Date()` separately for each (Models/Rental.swift:42 and :49), so when both fall back, the real expiry is slightly later than `now + 604800`.
- RentalsView.ToRental: reads the clock once. The source evaluates the fallback date twice (Views/RentalsView.swift:50-51), so with an unparsable date the real expiry minus start is slightly more than `minimumRent * 86400`.
- History.Grouped: assumes the formatter's locale groups in threes with a "-" minus sign. Locales with other grouping sizes are not modelled, and neither is the unreachable `String(self)` fallback.
- `localizedCaseInsensitiveContains` and `lowercased()` are modelled by ASCII case folding. Non-ASCII case mappings and locale rules are left out.
- BookDetail.ReadMoreButton: counts `Character`s as Dafny `char`s, so grapheme clusters of several code points are not modelled.
- `Task`, `MainActor`, `Task.sleep` timing and cancellation are left out. The poll loop is sequential and counts sleeps, and a sleep that throws on cancellation is not modelled, since nothing cancels the polling `Task`.
- PaymentPolling.Poll: a finite reply sequence can run out while the real loop would keep polling. That case is reported as `StillPolling`.
- Services/NotificationManager.swift is platform notification scheduling.
- Logging (`print`) and the `coverImage` URL are display-only.
- `BookCardView.formattedPrice` uses floating-point `%.2f` formatting.
- `signOut()`, `transactionHistory` and `fetchTransactionHistory()` are used by views but not defined in `AppViewModel`, so they are not modelled. The token lives only in memory, and `rentBook` passes the duration to the server without checking it.
- AppViewModel.Login: describes only the final state of each action, plus the in-flight state `BeginRequest`. Interleavings of concurrent actions are not modelled.
