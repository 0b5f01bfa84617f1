# Parking booking: a verified model of the booking core

This project models a parking-booking web application in Dafny and proves properties about the model.

- **Backend.** An Express/Prisma backend allocates parking slots and lists a user's booking history.
- **Frontend.** A React frontend searches and filters parking areas, books a time window, follows a ticket from entry to exit, and shows the booking history. A keyword chatbot answers parking questions.

One Dafny module models each core source file:

| module | file | what it holds |
|---|---|---|
| `Common` | `common.dfy` | Shared vocabulary. It has JavaScript's `||`, `??` and `includes`, ASCII case mapping and `trim() === ""`. It also has an order-keeping `Filter` with its subsequence lemmas, a first-match lookup `FindFirst` that every lookup by key uses, a descending insertion sort, and decimal rendering of integers. |
| `BookService` | `book_service.dfy` | The store queries of `Backend/service/bookService.js`. Its `Store` class holds the area, slot and booking tables. `Create` and `Delete` change the booking table. |
| `BookController` | `book_controller.dfy` | `book` as a first-fit scan: a loop with `break` over the area's slots, then an insert. It also has `del_book`, both as written and corrected, the no-double-booking invariant, and the re-booking property after a cancellation. |
| `HistoryController` | `history_controller.dfy` | `latest_booking` and `history` as pure functions of a store snapshot. They validate the id, keep one user's bookings, order them newest first, and project the fields the client shows. |
| `BookingClient` | `booking_client.dfy` | The record normalisation in `bookingService.jsx`, and what `getUserBookingHistory` and `deleteHistoryEntry` return for each response. |
| `ProfilePage` | `profile_page.dfy` | The history sort and the delete filter. `ProfileView` is a class whose handlers update the page state. Also the notification-time label and the status derivations. |
| `BookingPage` | `booking_page.dfy` | The vehicle-number format and its field decomposition, and form validity. `BookingForm` is a class with the picker clamping and `handleBooking`. |
| `ParkingService` | `parking_service.dfy` | Area listing, search and lookup by id. The status-update result mapping. The backend route table, which shows that the status route does not exist. |
| `TicketPage` | `ticket_page.dfy` | The actions each status offers, and the CONFIRMED → ACTIVE → COMPLETED scans. `TicketView` is a class whose `updateStatus` replaces the booking. |
| `FindParkingPage` | `find_parking_page.dfy` | The filter effect, the feature toggle, `toTitleCase` and the explicit search. `FinderView` is a class. |
| `ParkingChatbot` | `parking_chatbot.dfy` | The keyword dispatch and the first-match location rule. `parseUserMessage` is a loop with `break`. `formatParkingResults` builds its reply with `+=`, proved equal to its specification. |
| `AuthModal` | `auth_modal.dfy` | The login and signup forms as field maps with their change handlers. The signup checks and their order, the switch to the login tab for an already-registered email, and the loading flag. |

Modelling conventions:

- **Time.** Times are integer milliseconds. The clock (`now`) is a parameter.
- **External calls.** The outcome of every HTTP request, store call or authentication call is a parameter. A resolved response is `Fetch.Responded` and a rejection is `Fetch.Threw`.
- **JavaScript values.** `null` and `undefined` fields are `Option.None`. JavaScript's `NaN` from `Number(...)` is also `None`.
- **Store order.** The store returns rows in table order where the source query has no `orderBy`. Where a query asks for `createdAt` descending, the model sorts by that key.

## Model

| member | source | states |
|---|---|---|
| BookService.OverlapsSymmetric | Backend/service/bookService.js:21 | The conflict test `start < endTime && end > startTime` is symmetric in the two intervals. |
| BookService.TouchingDoesNotOverlap | Backend/service/bookService.js:21 | A booking that ends exactly when the request starts does not conflict with it, and neither does one that starts exactly when it ends. |
| BookService.OverlapsIffSharedInstant | Backend/service/bookService.js:21 | For intervals with start < end, the conflict test holds exactly when the two half-open intervals share an instant. |
| BookService.FindAreaByName | Backend/service/bookService.js:3-7 | A result is a stored area with the requested name. Null is returned exactly when no area has that name. |
| BookService.SlotsOfAreaExact | Backend/service/bookService.js:10-15 | An area's slots are exactly the stored slots with that `parkingId`, in store order. |
| BookService.FindConflict | Backend/service/bookService.js:17-24 | A result is a stored booking on the slot that overlaps the window. Null is returned exactly when no booking on that slot overlaps it. |
| BookService.FindBookingById | Backend/service/bookService.js:42-44 | A result is the stored booking with that id. Null is returned exactly when no booking has it. |
| BookService.RemoveIdExact | Backend/service/bookService.js:46-48 | Deleting by id removes exactly the rows with that id and keeps the others in order. |
| BookService.PaymentIdOrNull | Backend/service/bookService.js:35 | `paymentId \|\| null` stores the given id when it is non-empty, and null otherwise. |
| BookService.Store.Create | Backend/service/bookService.js:26-40 | The table becomes the old table plus one new row. The row has the chosen slot, the requested window, "pending" and the payment id or null. Existing rows and the area and slot tables are unchanged, and ids stay unique. |
| BookService.Store.Delete | Backend/service/bookService.js:46-48 | The delete succeeds exactly when the id exists. The table loses exactly that row and ids stay unique. |
| BookService.RemoveIdKeepsValid | Backend/service/bookService.js:46-48 | A delete keeps the ids unique and below the autoincrement counter. |
| BookController.FirstFreeIndex | Backend/controller/bookController.js:20-32 | The index of the first slot with no conflicting booking, or the slot count. Every earlier slot has a conflict. |
| BookController.FindFreeSlot | Backend/controller/bookController.js:18-32 | The scan loop with `break` finds a slot exactly when some slot is free. The slot it returns is free, and every slot before it conflicts. |
| BookController.BookSpec | Backend/controller/bookController.js:5-67 | The 500 reply exactly when no area has the requested name. A booking is made on a slot of that area with no conflicting booking, with the new id, the user, the requested window and "pending". |
| BookController.Book | Backend/controller/bookController.js:5-67 | The reply and the new booking table are those of the first-fit specification, evaluated on the store before the call. Areas and slots are unchanged and ids stay unique. |
| BookController.UnknownAreaIsServerError | Backend/controller/bookController.js:11-15 | An area name that is not stored gives the 500 reply (the null area is dereferenced, and the catch at lines 63-66 answers), and nothing is created. |
| BookController.NoSlotsExactly | Backend/controller/bookController.js:33-37 | "No slots" is answered exactly when the area exists and each of its slots conflicts, including when the area has no slots. That reply has status 200 and the fixed text, and adds nothing. |
| BookController.BookedIsFirstFit | Backend/controller/bookController.js:18-51 | A successful booking is on the first conflict-free slot of the area, and every earlier slot conflicts. It carries the requested window, "pending", and the payment id or null. The reply names the area and its city. |
| BookController.BookPreservesNoDoubleBooking | Backend/controller/bookController.js:20-51 | If no two bookings on one slot overlap before `book`, none do after it. |
| BookController.RemoveKeepsNoDoubleBooking | Backend/controller/bookController.js:78 | Deleting a booking keeps the no-double-booking invariant. |
| BookController.DeleteFreesWindow | Backend/controller/bookController.js:20-32 | Once a booking is deleted, its slot is free for the same window, so the scan stops at or before that slot. |
| BookController.RebookAfterDelete | Backend/controller/bookController.js:20-51 | Re-booking a deleted booking's window in its area succeeds. |
| BookController.WorkedExample | Backend/controller/bookController.js:18-51 | Slot 1 is booked for [600, 660). A request for [630, 690) gets slot 2, and a back-to-back request for [660, 720) gets slot 1. |
| BookController.DelBook | Backend/controller/bookController.js:69-88 | `del_book` as written. The table loses exactly the booking with that id, if any. The replies sent are "Canceled" for an existing id, and a 404 followed by a second 500 attempt for a missing id. |
| BookController.DelBookWithReturn | Backend/controller/bookController.js:74-76 | With a `return` after the 404, the same deletion is made and exactly one reply is sent. |
| BookController.DelBookOutcomes | Backend/controller/bookController.js:73-80 | For an existing id, exactly that booking goes and the others stay in order. For a missing id, the table is unchanged and the first reply is the 404. |
| BookController.DelWithReturnAnswersOnce | Backend/controller/bookController.js:74-83 | The corrected handler sends one reply, the same one the client sees from the handler as written. The handler as written attempts two replies exactly when the id is missing. |
| HistoryController.CheckUserId | Backend/controller/historyController.js:49-53 | A missing, non-numeric or zero id is rejected, and any other id is kept. |
| HistoryController.FindSlotById | Backend/controller/historyController.js:66-71 | The `include` of a booking's slot finds the stored slot with that id, and none exactly when no slot has it. |
| HistoryController.FindAreaById | Backend/controller/historyController.js:66-71 | The nested `include` finds the stored area with that id, and none exactly when no area has it. |
| HistoryController.UserBookingsExact | Backend/controller/historyController.js:63-64 | The rows read are exactly the user's bookings, in store order. |
| HistoryController.Project | Backend/controller/historyController.js:82-92 | A booking projects exactly when its slot and that slot's parking area exist. The entry carries the booking's id, the area's name and city, the slot number, and the booking's window, vehicle, amount and payment status. |
| HistoryController.ProjectAll | Backend/controller/historyController.js:82-92 | The list projects exactly when every row does. It then has one entry per row, in order. |
| HistoryController.History | Backend/controller/historyController.js:47-105 | 400 exactly for a missing or zero id, and 404 exactly for a valid id of an unknown user. A 500 happens only when some booking of the user has no slot or no area, so never in a consistent store. A listing has one entry per booking of the user. |
| HistoryController.Latest | Backend/controller/historyController.js:4-45 | 400 exactly for a missing or zero id. A 500 happens only when some booking of the user has no slot or no area, so never in a consistent store. A found booking is one of the user's bookings and carries no slot number. |
| HistoryController.BadIdRejected | Backend/controller/historyController.js:6-10 | A missing or zero id gives 400 from both handlers. The same check is at lines 49-53. |
| HistoryController.UserRowsExact | Backend/controller/historyController.js:63-73 | The history rows are a permutation of the user's bookings, sorted by `createdAt`, newest first. |
| HistoryController.HistoryOutcomes | Backend/controller/historyController.js:55-80 | For a valid id, an unknown user gets 404, and a known user gets the empty 200 exactly when they have no bookings. |
| HistoryController.HistoryIsProjection | Backend/controller/historyController.js:63-97 | When the store is consistent and a known user has bookings, the reply is the projection of the user's rows, newest first. |
| HistoryController.HistoryListsRows | Backend/controller/historyController.js:63-97 | When the store is consistent and a known user has bookings, the reply lists one entry per booking, newest first. Each entry has the booking's id, window, vehicle, amount, status and slot number. |
| HistoryController.LatestIsNewest | Backend/controller/historyController.js:12-26 | The reply is 404 exactly when the user has no bookings. Otherwise the booking returned is the user's booking with the greatest `createdAt`. |
| HistoryController.LatestIsHistoryHead | Backend/controller/historyController.js:28-39 | The latest booking is the head of the history, without the slot number. This holds in the model, where both handlers read one fixed newest-first order. |
| BookingClient.NormalizeAll | Frontend/Front-end/src/services/bookingService.jsx:38-50 | The normalised list has one item per record, in order, and each item is that record's normalisation. |
| BookingClient.NormalizeDefaults | Frontend/Front-end/src/services/bookingService.jsx:48-49 | `createdAt` falls back to `startTime`. `paymentId` is null exactly when absent. The id and vehicle are carried over. |
| BookingClient.Map | Backend/controller/historyController.js:82-92 | The records the history endpoint serialises, one per entry, in order. |
| BookingClient.BackendListNormalised | Frontend/Front-end/src/services/bookingService.jsx:38-50 | Normalising what the history endpoint sends gives, per entry, its id, and `createdAt` equal to `startTime`, because the endpoint sends no `createdAt`. `paymentId` is null. |
| BookingClient.AsWrittenNeverLists | Frontend/Front-end/src/services/bookingService.jsx:31-55 | As written, every 200 response with a body fails, and a success is always the empty list. |
| BookingClient.GetUserBookingHistory | Frontend/Front-end/src/services/bookingService.jsx:31-55 | As written: a rejection is rethrown unchanged. The call succeeds exactly when the response has no body, and every response with a body fails with the `map` type error. |
| BookingClient.GetUserBookingHistoryFixed | Frontend/Front-end/src/services/bookingService.jsx:31-55 | Reading the list from the envelope: a rejection is rethrown unchanged. Otherwise the result is the normalised list, or empty when the body or list is absent. |
| BookingClient.EnvelopeExample | Frontend/Front-end/src/services/bookingService.jsx:35-38 | A 200 response carrying a non-empty history makes the client as written fail, while the corrected one returns every entry. |
| BookingClient.DeleteHistoryEntry | Frontend/Front-end/src/services/bookingService.jsx:60-67 | An error is reported exactly when the request rejects, and it is that rejection's error. |
| ProfilePage.SortHistoryOrders | Frontend/Front-end/src/pages/ProfilePage.jsx:38-42 | The sorted history is a permutation of the fetched one, newest `createdAt` first. |
| ProfilePage.RemoveEntryExact | Frontend/Front-end/src/pages/ProfilePage.jsx:60 | The filter removes exactly the entries with the deleted id and keeps the rest in order. |
| ProfilePage.ProfileView.FetchHistory | Frontend/Front-end/src/pages/ProfilePage.jsx:24-51 | With no user, the history is empty and no fetch is made. On success the sorted history is stored; on failure it is empty with the error text. Loading is always cleared. |
| ProfilePage.ProfileView.HandleDeleteHistoryEntry | Frontend/Front-end/src/pages/ProfilePage.jsx:56-64 | With a user and a successful delete, exactly that entry leaves the list. With no user, or a failed delete, the list is unchanged and the alert is shown. |
| ProfilePage.FormatNotificationTime | Frontend/Front-end/src/pages/ProfilePage.jsx:72-82 | The label is "Just now" exactly when the stamp is missing, invalid, 0, or less than a minute old. Minutes are between 1 and 59 and hours between 1 and 23, each bracketing the elapsed time. The label is the date exactly from 1440 minutes on. |
| ProfilePage.LabelMonotone | Frontend/Front-end/src/pages/ProfilePage.jsx:76-81 | As a notification ages, its label never moves to a finer unit. |
| ProfilePage.CurrentPanel | Frontend/Front-end/src/pages/ProfilePage.jsx:97-105 | The panel is shown exactly when a booking exists whose status is not "COMPLETED". It shows the lower-cased status. A shown booking without a status crashes rendering. |
| ProfilePage.DisplayStatusChoice | Frontend/Front-end/src/pages/ProfilePage.jsx:214 | The shown status is the payment status, else the status, else "n/a", lower-cased, never empty, and with no upper-case letter. |
| ProfilePage.PendingShownAsWaiting | Frontend/Front-end/src/pages/ProfilePage.jsx:255-261 | A "PENDING" payment status is shown as "pending" in the waiting colour. |
| BookingPage.SplitComposes | Frontend/Front-end/src/pages/BookingPage.jsx:55-56 | Every valid vehicle number splits into a state, district, series and number that compose back to it. |
| BookingPage.ComposeSplits | Frontend/Front-end/src/pages/BookingPage.jsx:55-56 | Every well-formed set of fields composes to a valid number that splits back into the same fields. |
| BookingPage.ValidVehicleShape | Frontend/Front-end/src/pages/BookingPage.jsx:55-56 | A valid number has 9 or 10 characters, is not blank, and is its own upper case. |
| BookingPage.BookingValidWithoutBlankTest | Frontend/Front-end/src/pages/BookingPage.jsx:58-63 | The form is valid exactly when the lot is loaded, the number is valid, start < end and no booking is in progress. The blank test is implied. |
| BookingPage.BtnTextMatchesEnabled | Frontend/Front-end/src/pages/BookingPage.jsx:112-116 | The button invites payment exactly when the form is valid. |
| BookingPage.InitialStart | Frontend/Front-end/src/pages/BookingPage.jsx:25-36 | The initial start is a whole hour, strictly after now and at most an hour later. |
| BookingPage.BookingForm.constructor | Frontend/Front-end/src/pages/BookingPage.jsx:25-36 | The form starts with the next whole hour and a one-hour window, and an empty vehicle number. |
| BookingPage.BookingForm.OnVehicleChange | Frontend/Front-end/src/pages/BookingPage.jsx:209 | The vehicle number becomes the upper case of the input, and nothing else changes. |
| BookingPage.BookingForm.OnStartChange | Frontend/Front-end/src/pages/BookingPage.jsx:166-172 | A cleared picker changes nothing. A start at or after the end pushes the end to start + 1 h. The window stays non-empty. |
| BookingPage.BookingForm.OnEndChange | Frontend/Front-end/src/pages/BookingPage.jsx:186-191 | An end earlier than start + 1 h is clamped to start + 1 h, so the window is at least an hour. |
| BookingPage.BookingForm.HandleBooking | Frontend/Front-end/src/pages/BookingPage.jsx:67-104 | The checks run in order: user, then vehicle, then window. Each failure stores nothing. Success stores exactly the payload: user, lot, amount, upper-cased vehicle, window and "PREPAID". A form whose window was kept non-empty never fails on time. |
| BookingPage.StoredVehicleIsValid | Frontend/Front-end/src/pages/BookingPage.jsx:91 | The stored, upper-cased vehicle number is the validated one. |
| ParkingService.FetchAllParkingAreas | Frontend/Front-end/src/services/parkingService.js:8-11 | A rejection propagates. Otherwise the result is the body's list, or empty when absent. |
| ParkingService.SearchExact | Frontend/Front-end/src/services/parkingService.js:61-71 | The search keeps, in order, exactly the areas whose name, address or city contains the lower-cased term. |
| ParkingService.SearchIgnoresTermCase | Frontend/Front-end/src/services/parkingService.js:66 | Searching for a term and for its lower case gives the same result. |
| ParkingService.EmptyTermKeepsNamedAreas | Frontend/Front-end/src/services/parkingService.js:65-70 | The empty term keeps exactly the areas that have a name, an address or a city. |
| ParkingService.SearchParkingAreasWithAvailability | Frontend/Front-end/src/services/parkingService.js:76-80 | The availability search always rejects. |
| ParkingService.FindAreaById | Frontend/Front-end/src/services/parkingService.js:85-88 | The first area whose decimal id equals the parameter, or null exactly when there is none. |
| ParkingService.FindCanonicalId | Frontend/Front-end/src/services/parkingService.js:87 | Looking up the decimal form of n finds an area exactly when one has id n, and finds that area. |
| ParkingService.LeadingZeroFindsNothing | Frontend/Front-end/src/services/parkingService.js:87 | A parameter with a leading zero, such as "07", matches no area. |
| ParkingService.UpdateBookingStatus | Frontend/Front-end/src/services/parkingService.js:121-136 | A rejection becomes the failed result with "Failed to update status". A response succeeds unless it says `success: false`. A message in the response is passed through unchanged, and an absent one becomes "Status updated". |
| ParkingService.Dispatch | Backend/router/bookRouter.js:8-11 | A request is answered by its handler exactly when the route is mounted. Otherwise the helper rejects on the 404. |
| ParkingService.StatusUpdateAlwaysFails | Frontend/Front-end/src/services/parkingService.js:121-136 | `POST /api/book/status` is not mounted, so every status update reports failure. |
| TicketPage.Offered | Frontend/Front-end/src/pages/TicketPage.jsx:102-154 | Entry scan and directions exactly when confirmed, exit scan exactly when active, "find new" exactly when completed or cancelled, and details unless cancelled. |
| TicketPage.TerminalOffersNavigationOnly | Frontend/Front-end/src/pages/TicketPage.jsx:119-154 | Completed and cancelled bookings offer no scan, only navigation. |
| TicketPage.RunMovesForward | Frontend/Front-end/src/pages/TicketPage.jsx:45-51 | Any sequence of scans keeps a booking on CONFIRMED → ACTIVE → COMPLETED and never moves it back. |
| TicketPage.RunOffPathIsStuck | Frontend/Front-end/src/pages/TicketPage.jsx:45-51 | No scan changes a cancelled or pending booking. |
| TicketPage.EntryThenExitCompletes | Frontend/Front-end/src/pages/TicketPage.jsx:45-51 | Entry then exit completes a confirmed booking, and an exit scan alone does nothing. |
| TicketPage.TicketView.OnBookingChange | Frontend/Front-end/src/pages/TicketPage.jsx:15-23 | With no booking the page navigates to the finder. A confirmed booking shows the gate message. |
| TicketPage.TicketView.UpdateStatus | Frontend/Front-end/src/pages/TicketPage.jsx:25-43 | With no booking nothing happens. A failed update leaves the booking and shows the error. A successful one replaces only the status and shows the matching message. |
| TicketPage.TicketView.SimulateEntry | Frontend/Front-end/src/pages/TicketPage.jsx:25-47 | On success the booking becomes ACTIVE, the status one entry scan gives, and the message is "Welcome! Your parking session has started.". On failure the booking is unchanged and the error message is shown. |
| TicketPage.TicketView.SimulateExit | Frontend/Front-end/src/pages/TicketPage.jsx:25-51 | On success the booking becomes COMPLETED, the status one exit scan gives, and the message is "Your session is complete. Thank you for parking with us!". On failure the booking is unchanged and the error message is shown. |
| TicketPage.EntryScanNeverTakesEffect | Frontend/Front-end/src/pages/TicketPage.jsx:25-43 | Against the mounted backend, the entry scan's update always fails. |
| FindParkingPage.FilterLotsExact | Frontend/Front-end/src/pages/FindParkingPage.jsx:143-160 | The shown lots are, in loaded order, exactly the lots that meet all three conditions. The name or address contains the term, ignoring case. The amount, or 0, is within the price. Every selected feature is present, and no feature selected means no constraint. |
| FindParkingPage.ToggleFlips | Frontend/Front-end/src/pages/FindParkingPage.jsx:163-169 | The toggled feature flips membership, and every other feature keeps its membership. |
| FindParkingPage.ToggleTwiceRestores | Frontend/Front-end/src/pages/FindParkingPage.jsx:163-169 | Toggling an absent feature twice gives back the same list. |
| FindParkingPage.ToggleKeepsNoDuplicates | Frontend/Front-end/src/pages/FindParkingPage.jsx:163-169 | Toggling keeps a duplicate-free list duplicate-free. Toggling twice restores the set of features. |
| FindParkingPage.ToTitleCase | Frontend/Front-end/src/pages/FindParkingPage.jsx:90-91 | Same length, the first character upper-cased and the rest lower-cased. "" stays "". |
| FindParkingPage.ToTitleCaseIdempotent | Frontend/Front-end/src/pages/FindParkingPage.jsx:90-91 | Title-casing twice is title-casing once. |
| FindParkingPage.ToTitleCaseShape | Frontend/Front-end/src/pages/FindParkingPage.jsx:90-91 | No lower-case first letter and no upper-case letter after it. |
| FindParkingPage.SearchMatchesExact | Frontend/Front-end/src/pages/FindParkingPage.jsx:200-204 | The search keeps exactly the lots whose name or address contains the term, whatever their price. |
| FindParkingPage.FinderView.ApplyFilters | Frontend/Front-end/src/pages/FindParkingPage.jsx:143-160 | The shown lots become the filtered lots, and no other state changes. |
| FindParkingPage.FinderView.HandleFeatureToggle | Frontend/Front-end/src/pages/FindParkingPage.jsx:163-169 | The feature list is toggled and the filter effect re-runs. |
| FindParkingPage.FinderView.HandleSearchParking | Frontend/Front-end/src/pages/FindParkingPage.jsx:192-214 | A blank term does nothing. Otherwise the lots become the matches, or the error text is shown on failure. |
| FindParkingPage.SearchThenFilter | Frontend/Front-end/src/pages/FindParkingPage.jsx:143-160 | After a search, the filter keeps exactly the fetched lots that match the term, are within the price and have the selected features. |
| ParkingChatbot.ConfirmBookingUnreachable | Frontend/Front-end/src/services/parkingChatbot.js:155 | The "book" + "yes" branch is never taken, because "book" is a parking keyword. |
| ParkingChatbot.DelhiIsAGreeting | Frontend/Front-end/src/services/parkingChatbot.js:189-192 | "find parking in delhi" is answered with the greeting, because "delhi" contains "hi" and greetings are tested first. |
| ParkingChatbot.ParkingKeywordIsRequest | Frontend/Front-end/src/services/parkingChatbot.js:184-187 | A message with one of the seven keywords and no greeting is a parking request. |
| ParkingChatbot.FirstLocation | Frontend/Front-end/src/services/parkingChatbot.js:27-33 | The location is null exactly when no pattern matched. Otherwise it is `match[1] \|\| match[0]` of the first pattern that matched. |
| ParkingChatbot.ParseUserMessage | Frontend/Front-end/src/services/parkingChatbot.js:12-52 | The loop settles on the first matching pattern's location. Start and end are set only together, from a time match. The date comes from the numeric match, else from today/tomorrow. All fields are null otherwise. |
| ParkingChatbot.FormatParkingResults | Frontend/Front-end/src/services/parkingChatbot.js:90-120 | The `+=` loop builds exactly the specified reply: a header, one card per result for up to three, the "more" line, and the footer. |
| ParkingChatbot.NoResultsExactly | Frontend/Front-end/src/services/parkingChatbot.js:91-99 | The fixed no-results text is returned exactly for a failure, missing data or an empty list. |
| ParkingChatbot.FoundFramesReply | Frontend/Front-end/src/services/parkingChatbot.js:101-117 | A non-empty result starts with the header and ends with the footer. |
| ParkingChatbot.OnlyFirstThreeListed | Frontend/Front-end/src/services/parkingChatbot.js:105-115 | Results past the third are never shown. Lists that agree on their first three give the same reply. |
| ParkingChatbot.FewResultsAllListed | Frontend/Front-end/src/services/parkingChatbot.js:105-115 | Up to three results are all listed, with no "more" line. |
| ParkingChatbot.HeaderPlural | Frontend/Front-end/src/services/parkingChatbot.js:101-103 | The header says "areas" exactly when the count exceeds one. |
| ParkingChatbot.HandleUserMessage | Frontend/Front-end/src/services/parkingChatbot.js:125-179 | A greeting wins first. A parking request with no location gets the prompt and no search. Otherwise the reply is the formatted search for the parsed location. Help and the fallback reply come last. |
| AuthModal.ErrorText | Frontend/Front-end/src/components/AuthModal.jsx:53-56 | The shown error is the response message, else the error message, else the fallback, and never empty. |
| AuthModal.SignupCheck | Frontend/Front-end/src/components/AuthModal.jsx:69-77 | Signup may proceed exactly when the passwords match and have at least 6 characters. A mismatch is reported before a short password. |
| AuthModal.MismatchReportedFirst | Frontend/Front-end/src/components/AuthModal.jsx:69-77 | A short password that also mismatches is reported as a mismatch. |
| AuthModal.RegisteredCaseExamples | Frontend/Front-end/src/components/AuthModal.jsx:95 | "EMAIL already registered" switches to login, while "Email Registered" does not: only "email" is case-insensitive. |
| AuthModal.SetField | Frontend/Front-end/src/components/AuthModal.jsx:33-37 | `{ ...form, [name]: value }` sets the named field and leaves every other field as it was. |
| AuthModal.AuthView.HandleLoginChange | Frontend/Front-end/src/components/AuthModal.jsx:33-34 | Only the named login field changes. |
| AuthModal.AuthView.HandleSignupChange | Frontend/Front-end/src/components/AuthModal.jsx:36-37 | Only the named signup field changes. |
| AuthModal.AuthView.HandleLogin | Frontend/Front-end/src/components/AuthModal.jsx:42-61 | Loading is false afterwards. The dialog closes exactly on success. A failure shows the error text, and the forms and tab are unchanged. |
| AuthModal.AuthView.HandleSignup | Frontend/Front-end/src/components/AuthModal.jsx:66-103 | The call is made exactly when both checks pass, and a failed check shows its message. An "email … registered" error switches to the login tab, with the signup email and an empty password. Loading is false after every call. |

## Left out

- The scan and the insert of `book` form one sequential step in the model. The source runs them as separate store calls with no transaction, so two concurrent requests can both pick the same slot. The model does not claim atomicity.
- Prisma, Express routing, axios and React state plumbing are not modelled. Their effects are parameters: the store snapshot, `Fetch` outcomes and the route table.
- The `if (!book)` 400 branch of `book` (bookController.js:53-55) is left out: `create` returns the row or throws, so the branch is unreachable.
- `del_book` takes an integer id. A non-numeric `id` (NaN) and fractional ids are not modelled.
- `history` and `latest_booking` (`HistoryController.CheckUserId`) take an integer id or none. A non-numeric id (NaN) is modelled as none and rejected, as the source rejects it. Fractional or infinite ids such as `?id=1.5` or `?id=Infinity` pass `!userId` and then make the store call fail with a 500. They are not modelled.
- The 500 replies to store failures other than a missing area are not modelled.
- Dates are integer milliseconds. `new Date(...)` parsing, time zones, `toLocaleString` and `toLocaleDateString` are not modelled: the date label takes the locale string as a parameter.
- BookingPage.BookingForm.OnVehicleChange: the input's `maxLength={10}` truncation, done by the browser, is not modelled.
- Case mapping is ASCII only. JavaScript's `toLowerCase`/`toUpperCase` also map non-ASCII letters.
- AuthModal.SignupCheck: counts Unicode characters, whereas JavaScript's `length` counts UTF-16 code units.
- `getNearbyParkingAreas` (parkingService.js:16-56) is left out because it uses floating-point distance.
- The chatbot's regular expressions are not modelled. `ParseUserMessage` receives what each `match` returned.
- `searchParkingSpaces` is a fetch and is the `search` parameter of `HandleUserMessage`.
- ParkingChatbot.FormatParkingResults: amounts and slot counts are integers. An absent name or address is not rendered as "undefined".
- HistoryController.LatestIsHistoryHead: the two handlers run separate queries ordered by `createdAt` only. When two of a user's bookings share a `createdAt`, the store may break the tie differently in each. The model uses one order for both, so the lemma is only promised when the user's `createdAt` values are distinct.
- ProfilePage.SortHistoryOrders: sorted and a permutation, but stability for equal `createdAt` is not proved.
- HistoryController.UserRowsExact: sorted and a permutation, but the order among equal `createdAt` values is the store's and is not fixed.
- ProfilePage's `handleDeleteNotification` and the notification endpoints are stubs and are not modelled.
- Rendering and styling are not modelled beyond the derivations listed above.
- The already-logged-in effect and the password-reset toast of the auth dialog are not modelled.
- FindParkingPage's periodic refresh and its URL-query effect are not modelled, apart from `toTitleCase`.
- `fetchBookingHistory`, `fetchLatestBooking` and `createBookingAfterPayment` are not part of this model.
- The payment flow (Razorpay checkout, HMAC signature check), the Gemini chat, JWT decoding and the notification services are not part of this model.

## Findings

| source | as written | input that shows it | evidently intended | confidence | as-written member | corrected member |
|---|---|---|---|---|---|---|
| Backend/controller/bookController.js:74-76 | A missing booking sends 404 without `return`, so the delete still runs. It throws, and the catch sends a second response (500) on a response already sent. | `DELETE /api/book/del?id=N` for an id N that is not stored | Answer 404 once and stop | not executed | BookController.DelBook (with BookController.DelWithReturnAnswersOnce) | BookController.DelBookWithReturn |
| Frontend/Front-end/src/services/bookingService.jsx:35-38 | `res` is the axios response, so `res.data` is the `{ message, data }` envelope. The envelope has no `map`, so every history load with a body fails. | A 200 reply `{ message: "History Retrieved Successfully", data: [entry] }` | Normalise `res.data.data`, or the empty list when it is absent | not executed | BookingClient.GetUserBookingHistory (with BookingClient.AsWrittenNeverLists, BookingClient.EnvelopeExample) | BookingClient.GetUserBookingHistoryFixed |
