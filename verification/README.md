# Event booking and settlement, modelled in Dafny

This project models the core of an event-ticketing web application. It
has an Express/Mongoose backend and a React/Redux front end. The modelled
core covers:

- **Catalogue.** Organisers create, update and delete events that carry
  ticket types (General Admission and optionally VIP). Listings are
  paginated, sorted and filtered, and users get recommendations from
  their interests.
- **Booking and settlement.** Buyers pick tickets in a cart, and a
  booking is created against a payment-gateway order. `verifyPayment`
  checks the gateway's signature and then, in one transaction, takes the
  booked units off each ticket type's stock, adds them to `sold`, adds
  attendees, and confirms the booking. Bookings can be listed, cancelled
  and downloaded as ticket data, and a QR scan checks the holder in.
- **Accounts and gates.** Registration, login, one-time-code password
  reset, profile and interest updates, and notifications. Request gates
  check the bearer JWT and the organiser role, and an error envelope
  answers failures.
- **Organiser reporting.** Dashboard statistics, the event list, and a
  per-ticket CSV export.
- **Assistant and collaborators.** The assistant classifies questions by
  keyword and builds a database context for the language model. The
  collaborator finder ranks other users by the similarity of their
  feature vectors.
- **Client state.** The front end's store slices and the logic of its
  pages: discovery filters, the event page's ticket picker, dashboards,
  the create-event wizard and image picker, and interest selection.

Each source component is one Dafny module; the organiser controller's
booking export has its own, `Export`. The modules share `Wrappers`
(`Option`, `Result`, `HttpError`), `Text` (case mapping, substring
search, split/join, decimal digits) and `Seqs` (filter, stable sort by
key, sums, take).

Throughout the model:

- The Mongo collections are sequences in store order (`Bookings.Db`).
- A handler is a pure function from the store and the request to the new
  store and the answer.
- Every error path is an `Err(HttpError(status, message))` with the
  source's status code.
- Money and quantities are whole numbers (`nat`); dates and times are
  milliseconds (`int`).
- Whatever the source takes from outside is a parameter of the function:
  the clock, random draws, the keyed hash, JWT verification, bcrypt, the
  gateway's order id and the similarity score.

In these places the code does not do what its names suggest; the model
follows the code:

- A ticket type's `quantity` is the stock still for sale, not the total
  issued: `verifyPayment` subtracts confirmed units from it
  (backend/controllers/paymentController.js:87).
- `verifyPayment` short-circuits only for a booking already `confirmed`.
  A `cancelled` or `refunded` booking is confirmed again and takes stock.
- `cancelBooking` checks only that the booking exists, not who bought it.
  It marks the booking cancelled whatever its status, returns no stock,
  and reports the full amount as refunded.
- `createBooking` stores the client's `totalAmount` as given. It does not
  recompute it from the ticket prices.

## Model

| member | source | states |
|---|---|---|
| Tickets.FindType | backend/controllers/paymentController.js:64-66 | the lookup by type returns the first line of that type, and none exactly when no line has the type |
| Events.CreateTickets | backend/controllers/eventController.js:114-136 | creation fails with 400 exactly when General Admission has no positive price; otherwise GA first (default 100 units), VIP second only when priced above zero (default 50), nothing sold |
| Events.CreateEvent | backend/controllers/eventController.js:95-201 | succeeds exactly with a General Admission price above zero and a form the schema accepts (title, description, category, date, times, venue name, an address or location, coordinates, organiser name); 400 without the price, 500 for an incomplete form; the event belongs to the caller, has no attendees, rating 0 and nothing sold, the GA price, exactly the ticket lines built from the form, the uploaded or default images, capacity defaulting to 100, and the coordinates as `[lng, lat]` |
| Events.SoldOfFirstLine | backend/controllers/eventController.js:259-260 | the sold count carried over for a type is that of its first stored line, and 0 for a type the catalogue lacks |
| Events.UpdateEvent | backend/controllers/eventController.js:206-297 | 404 exactly for a missing event, 403 exactly for a caller who is not the organiser, 500 exactly when a `location` string is sent; otherwise each of title, description, category, date, venue, featured, price and images takes the supplied value when supplied and keeps the stored one when not; id, organiser, times, creation time, attendees and rating never change |
| Events.UpdateKeepsSold | backend/controllers/eventController.js:255-280 | an updated catalogue holds one line per re-submitted price, each carrying the sold count stored for its type |
| Events.DeleteEvent | backend/controllers/eventController.js:300-325 | 404 exactly for an unknown id, 403 exactly when the found event is someone else's, success exactly when it is the caller's; then exactly that one event leaves the collection |
| Events.CeilDiv | backend/controllers/eventController.js:63 | the page count is the least whole number of pages holding all items |
| Events.Paginate | backend/controllers/eventController.js:50-67 | skip is `(page-1)*limit`, and a negative skip is a 500; `hasPrev` holds iff page > 1; `hasNext` holds iff the page ends before the last item, i.e. iff the page is below the page count |
| Events.HasNextIffBeforeLastPage | backend/controllers/eventController.js:63-65 | for a positive limit, `page*limit < total` exactly when the page is below `ceil(total/limit)` |
| Events.PageOf | backend/controllers/eventController.js:53 | the page is the sorted list from `skip` onwards: empty past the end, everything left when the limit is 0, else exactly min(limit, items left) long |
| Events.BackendSort | backend/controllers/eventController.js:43-48 | `date` and `price` sort ascending, `rating` descending, `popular` by attendees descending, and exactly the other keys sort newest created first |
| Events.SortEvents | backend/controllers/eventController.js:53 | a sort yields a permutation of the events, ordered by the field in the requested direction |
| Events.RecommendedEvents | backend/controllers/eventController.js:348-379 | unknown user is 404; with no interests, the ten earliest featured upcoming events (all when fewer), none left out earlier than one returned; otherwise exactly the upcoming events in a category of interest, each as often as stored; earliest first, never a past event |
| Events.FeaturedUpcoming | backend/controllers/eventController.js:359-367 | the fallback holds min(10, number of featured upcoming events) events, each featured, upcoming and stored, earliest first; no featured upcoming event left out is earlier than one returned |
| Events.UpcomingIn | backend/controllers/eventController.js:370-375 | an event is recommended exactly when it is not yet past and its category is one of the interests, each as often as it is stored; earliest first |
| Bookings.ParseStatus | backend/models/bookingModel.js:42-46 | the status enum accepts a name exactly when it names a status |
| Bookings.StatusRoundTrip | backend/models/bookingModel.js:42-46 | every status's name is accepted and reads back as that status |
| Bookings.ParseMethod | backend/models/bookingModel.js:36-40 | the payment-method enum accepts exactly the names of `card`, `upi` and `bank` |
| Bookings.DefaultBookingId | backend/models/bookingModel.js:6-10 | the default booking id is `BK` followed only by digits |
| Bookings.DefaultBookingIdInjective | backend/models/bookingModel.js:9 | for thirteen-digit creation times, the default id determines both the time and the random suffix |
| Bookings.DefaultBookingIdAmbiguousForShortTimes | backend/models/bookingModel.js:9 | with shorter times, two different draws give the same id ("BK123") |
| Bookings.AccessCode | backend/controllers/bookingController.js:130 | the access code is `TICKET-` followed by characters 2 to 9 of the booking id |
| Bookings.AccessCodeOfDefaultId | backend/controllers/bookingController.js:130 | for a default id, the access code is `TICKET-` and the first eight digits of the creation time |
| Bookings.GatewayOrder | backend/controllers/bookingController.js:24-28 | the gateway order is in rupees times 100 (paise), currency INR |
| Bookings.CreateBooking | backend/controllers/bookingController.js:11-51 | 404 exactly when the event is unknown; 400 when the attendee details or a ticket line's type name are missing (the schema refuses them, the catch answers 400); on success one `created` booking is appended with the client's tickets and amount, method defaulting to upi, the gateway's order id, and an order for the same amount |
| Bookings.CreateBookingKeepsKeysUnique | backend/models/bookingModel.js:6-10 | creating a booking keeps store ids, booking ids and order ids unique |
| Bookings.FindBooking | backend/controllers/bookingController.js:80 | `findById` finds the first booking with the id, and none exactly when no booking has it |
| Bookings.FindEvent | backend/controllers/bookingController.js:16-17 | `Event.findById` finds an event with the id exactly when one exists |
| Bookings.GetBookingById | backend/controllers/bookingController.js:79-83 | 404 exactly when no booking has the id; otherwise a stored booking with that id |
| Bookings.ViewOf | backend/controllers/bookingController.js:60-74 | a listed booking shows the amount paid, the booking id, the status and every booked line's type, quantity and price |
| Bookings.Views | backend/controllers/bookingController.js:59-74 | the listing fails exactly when a listed booking's event is gone; otherwise one view per booking, in order |
| Bookings.GetBookings | backend/controllers/bookingController.js:54-76 | the listing fails exactly when a listed booking's event is gone (the handler throws outside its catch); otherwise row i is the view of the i-th of the caller's bookings of the requested status (all statuses when none is given), in stored order |
| Bookings.GetBookingsSelects | backend/controllers/bookingController.js:55-57 | a booking is selected exactly when it is stored, is the caller's, and matches the status filter |
| Bookings.CancelBooking | backend/controllers/bookingController.js:86-101 | 404 exactly for an unknown id; otherwise only that booking's status becomes cancelled, events untouched, and the whole amount is reported refunded |
| Bookings.CancelIdempotent | backend/controllers/bookingController.js:86-101 | cancelling a cancelled booking changes nothing and gives the same answer |
| Bookings.DownloadTicket | backend/controllers/bookingController.js:104-146 | 404 exactly when no booking has the booking id; 403 exactly when the first such booking is someone else's; 500 exactly when it is the caller's but its event is gone; otherwise success, carrying the access code, attendee name, tickets, amount, and the event's title and date |
| Bookings.DownloadOnlyByOwner | backend/controllers/bookingController.js:114-116 | with unique booking ids, a download succeeds only for the buyer |
| Payment.SignedPayloadSplits | backend/controllers/paymentController.js:15-18 | when neither id contains `\|`, the signed text `order\|payment` splits back into the two ids |
| Payment.Move | backend/controllers/paymentController.js:87-90 | booking q units of a line moves q units from `quantity` to `sold` and keeps type and price |
| Payment.ApplyLines | backend/controllers/paymentController.js:61-92 | a successful loop keeps the catalogue's types and counts every booked unit as an attendee; a failure is 400 |
| Payment.ApplyLinesOkIff | backend/controllers/paymentController.js:64-88 | the loop succeeds exactly when every booked type is on sale and no type is asked for more units than its stock |
| Payment.ApplyLinesEffect | backend/controllers/paymentController.js:87-90 | after the loop each catalogue entry has given up exactly the units booked of its type, from quantity to sold, price unchanged |
| Payment.ApplyLinesIgnoresPrice | backend/controllers/paymentController.js:64-66 | the booked price plays no part: repricing the booked lines gives the same outcome |
| Payment.Stamp | backend/controllers/paymentController.js:97-100 | the stamped booking is confirmed and carries the payment id, signature and order id; nothing else changes |
| Payment.VerifyPayment | backend/controllers/paymentController.js:9-136 | a bad signature is 400, an unknown booking 404, an already confirmed booking is returned unchanged, a missing event for an unconfirmed booking 404 "Event not found"; every failure leaves the store unchanged; a success holds a valid signature and a confirmed booking |
| Payment.VerifyPaymentSucceedsIff | backend/controllers/paymentController.js:15-104 | a first confirmation succeeds exactly when the signature is valid, the booking is feasible against the event's stock, and the order id is not another booking's |
| Payment.VerifyPaymentEffect | backend/controllers/paymentController.js:87-104 | a first confirmation stamps the booking, moves the booked units to sold and adds them to the event's attendees; nothing else changes |
| Payment.VerifyPaymentIdempotent | backend/controllers/paymentController.js:39-48 | confirming again succeeds, changes nothing and answers with the stored booking |
| Payment.VerifyPaymentKeepsKeysUnique | backend/models/bookingModel.js:6-10 | a confirmation keeps store ids, booking ids and order ids unique |
| Payment.VerifyPaymentOnlyShrinksStock | backend/controllers/paymentController.js:78-90 | a confirmation never raises a line's stock or lowers its sold count, and keeps `quantity + sold` constant |
| Attendance.Persisted | backend/models/bookingModel.js:4-55 | what a save keeps of a booking: the schema has no check-in path, so the check-in is dropped and everything else stays |
| Attendance.VerifyAttendanceAsWritten | backend/controllers/attendanceController.js:5-36 | a bad token is 400 "Invalid or expired QR" and an unknown booking 404, as written |
| Attendance.AsWrittenNeverRecords | backend/controllers/attendanceController.js:19-21 | as written, a scan never leaves a check-in in the store |
| Attendance.AsWrittenAcceptsSecondScan | backend/controllers/attendanceController.js:15-21 | as written, scanning the same ticket again is accepted again |
| Attendance.VerifyAttendance | backend/controllers/attendanceController.js:5-36 | corrected scan: same errors; "Marked" exactly for a known, not yet attended booking whose event exists, and then only that booking changes, gaining the scan time as check-in; "Already checked in" leaves the store unchanged |
| Attendance.CheckInIsOneShot | backend/controllers/attendanceController.js:15-17 | corrected scan: after a check-in, every later scan of the same ticket answers "Already checked in" |
| Attendance.EntryOf | backend/controllers/attendanceController.js:44-50 | an entry is "Present" exactly when the booking is checked in, else "Absent" |
| Attendance.AttendanceList | backend/controllers/attendanceController.js:38-56 | one entry per booking of the event, in store order |
| Attendance.AsWrittenListAllAbsent | backend/controllers/attendanceController.js:48 | as written, everybody is listed "Absent" |
| Attendance.CheckedInListedPresent | backend/controllers/attendanceController.js:48 | corrected scan: a checked-in booking is listed "Present" |
| Organizer.OwnEvents | backend/controllers/organizerController.js:15 | the organiser's events are exactly the stored events they organise |
| Organizer.BookingsFor | backend/controllers/organizerController.js:18-21 | the bookings selected are exactly those for one of the given events |
| Organizer.DashboardIgnoresCancelled | backend/controllers/organizerController.js:18-21 | storing a cancelled booking leaves the dashboard statistics unchanged |
| Organizer.RevenueSplitsOnCancellation | backend/controllers/organizerController.js:30-32 | dashboard revenue plus cancelled revenue is the revenue of all bookings of own events |
| Organizer.RecentEventsAsWritten | backend/controllers/organizerController.js:53-84 | as written, the ten entries are the first ten own events in store order |
| Organizer.RecentEvents | backend/controllers/organizerController.js:83-84 | corrected list: at most ten entries |
| Organizer.RecentEventsNewestFirst | backend/controllers/organizerController.js:83-84 | corrected list: newest first, and no own event left out is newer than one listed |
| Organizer.RecentEventsOrderWitness | backend/controllers/organizerController.js:83 | two own events stored oldest first: as written the older one leads, corrected the newer one does |
| Organizer.RecentBookings | backend/controllers/organizerController.js:87-89 | min(5, number of active bookings for own events) bookings, each an active booking for an own event, newest first; no active own booking left out is newer than one listed |
| Organizer.ListSummary | backend/controllers/organizerController.js:127-148 | a list entry shows remaining stock, units of non-cancelled bookings, revenue of confirmed bookings, and "Published" |
| Organizer.ListRevenueAtMostActive | backend/controllers/organizerController.js:130-135 | list revenue (confirmed only) never exceeds the revenue of the event's non-cancelled bookings |
| Organizer.OrganizerEvents | backend/controllers/organizerController.js:106-167 | a negative skip is a 500; otherwise the page holds exactly min(limit, own events left) entries, entry `i` summarising own event `skip + i` over all its bookings, with the total and page count |
| Organizer.SummaryOverAllBookings | backend/controllers/organizerController.js:118-130 | summarising an event over the bookings of the shown events gives what summarising it over all bookings gives |
| Export.SerialIdDeterminesCounter | backend/controllers/organizerController.js:198 | a serial determines its counter |
| Export.PaymentStatus | backend/controllers/organizerController.js:207 | the payment status holds no lower-case letter and lower-cases back to the booking's status |
| Export.LineUnits | backend/controllers/organizerController.js:195-197 | a booking's lines give as many units as their quantities add up to, each of that booking and one of its lines |
| Export.LineUnitsComplete | backend/controllers/organizerController.js:195-197 | every line with a positive quantity yields a unit |
| Export.Units | backend/controllers/organizerController.js:191-197 | a list of bookings gives as many units as they hold, each of one of the bookings and one of its lines |
| Export.UnitsComplete | backend/controllers/organizerController.js:191-197 | every line with a positive quantity of every booking yields a unit |
| Export.UnitsOldestFirst | backend/controllers/organizerController.js:183-197 | units of bookings sorted oldest first never go back to an older booking |
| Export.RowsDescribe | backend/controllers/organizerController.js:188-210 | row `i` carries serial counter `start + i` and the booking id, event title or "N/A", ticket type, price, attendee and upper-cased status of unit `i` |
| Export.ExportBookingData | backend/controllers/organizerController.js:170-222 | one row per unit booked for own events, whatever the status; counters run 1, 2, 3, …; row `i` describes unit `i` of those bookings sorted oldest first |
| Export.ExportOldestFirst | backend/controllers/organizerController.js:183-185 | a later row never belongs to a booking created before that of an earlier row |
| Export.ExportCoversEveryTicket | backend/controllers/organizerController.js:183-197 | every ticket line with a positive quantity of every booking for own events is exported |
| Export.ExportSerialsDistinct | backend/controllers/organizerController.js:188-198 | no two export rows share a serial |
| Users.ParseRole | backend/models/userModel.js:9 | the role enum accepts exactly "user" and "organizer" |
| Users.FindByEmail | backend/controllers/userController.js:21 | `findOne({ email })` finds the first user with the email, and none exactly when no user has it |
| Users.FindById | backend/middlewares/authMiddleware.js:18 | `findById` finds a user with the id exactly when one exists |
| Users.FindByEmailAfterUpdate | backend/controllers/userController.js:122-133 | changing a user's other fields keeps every email lookup in place |
| Users.Register | backend/controllers/userController.js:18-40 | 400 when the email is taken, 500 on failed validation; otherwise one user is appended with the hashed password and the role, defaulting to "user" |
| Users.RegisterKeepsEmailsUnique | backend/models/userModel.js:6 | registration keeps emails unique |
| Users.Login | backend/controllers/userController.js:42-67 | login succeeds exactly when the email exists and the password matches its stored hash; every failure is 401 |
| Users.RegisterThenLogin | backend/controllers/userController.js:18-67 | a freshly registered user can log in with the password given |
| Users.OtpCode | backend/controllers/userController.js:172 | the one-time code is six decimal digits worth 100000 to 999999 |
| Users.SendOtp | backend/controllers/userController.js:167-181 | 404 exactly for an unknown email; otherwise only that user gains the code, expiring fifteen minutes later |
| Users.ResetPasswordAsWritten | backend/controllers/userController.js:183-203 | as written: a wrong, missing or expired code is 400; a success stores the new password unhashed and clears the code |
| Users.ResetAsWrittenLocksOut | backend/controllers/userController.js:195 | as written, the new password does not log in after a reset |
| Users.ResetPassword | backend/controllers/userController.js:183-203 | corrected reset: same guard; the new password is stored hashed and the code cleared |
| Users.ResetThenLogin | backend/controllers/userController.js:195-198 | corrected reset: the new password logs in |
| Users.OtpSingleUse | backend/controllers/userController.js:196-197 | after a reset, the code is refused, in both the as-written and the corrected reset |
| Users.SendThenReset | backend/controllers/userController.js:167-198 | a code just sent resets the password until it expires |
| Users.ExpiredOtpRefused | backend/controllers/userController.js:190-191 | a code is refused once its fifteen minutes have passed |
| Users.Merge | backend/controllers/userController.js:122-131 | only supplied, non-empty fields change; id, email, password, role and code never do |
| Users.MergeEmptyIsIdentity | backend/controllers/userController.js:125-130 | an empty profile form changes nothing |
| Users.MergeIdempotent | backend/controllers/userController.js:125-130 | applying the same profile form twice is applying it once |
| Users.UpdateProfile | backend/controllers/userController.js:111-143 | a missing user gives `null` and an unchanged store; otherwise only that user is merged |
| Users.UpdateProfileKeepsEmailsUnique | backend/models/userModel.js:6 | profile updates keep emails unique |
| Users.UpdateInterests | backend/controllers/userController.js:145-165 | a missing array is 400, an unknown user 404; otherwise only that user's interests are replaced |
| Users.DayStart | backend/controllers/userController.js:225-226 | midnight of the day: at most the time, within a day of it, a whole number of days |
| Users.NewEvents | backend/controllers/userController.js:230-235 | min(3, matching) stored events, each created in the last seven days and not yet past, the first matches in store order |
| Users.AlertsOf | backend/controllers/userController.js:243-255 | the alerts fail exactly when a booked event is gone; otherwise there are at most as many as bookings, and each is for one of the bookings whose event falls within the next thirty days |
| Users.AlertsInBookingOrder | backend/controllers/userController.js:243-255 | the alerts are, in booking order, one per booking whose event falls within the next thirty days, with that booking's id and its event's title, date and id |
| Users.UpcomingAlerts | backend/controllers/userController.js:236-255 | 500 exactly when a confirmed booking's event is gone; alerts come only from the user's confirmed bookings, and every confirmed booking whose event is due has its alert |
| Users.AlertsComplete | backend/controllers/userController.js:243-255 | every due booking of the list has its alert |
| Auth.BearerToken | backend/middlewares/authMiddleware.js:9-11 | a token is read only from a header starting with "Bearer"; it is the second space-separated word and is non-empty |
| Auth.BearerTokenOfHeader | backend/middlewares/authMiddleware.js:9-11 | `Bearer <token>` yields the token |
| Auth.NoTokenWithoutBearer | backend/middlewares/authMiddleware.js:9 | a header not starting with "Bearer" yields no token |
| Auth.Protect | backend/middlewares/authMiddleware.js:5-36 | a missing token is 401; success exactly when the token verifies and names a stored user, who is returned; only unexpected verifier errors are 500 |
| Auth.OrganizerOnly | backend/middlewares/authMiddleware.js:39-49 | no user is 401, a non-organiser 403; only an organiser passes |
| Auth.OptionalProtect | backend/middlewares/authMiddleware.js:51-80 | never rejects; any user it sets is a stored user |
| Auth.OptionalAgreesWithProtect | backend/middlewares/authMiddleware.js:5-80 | the optional gate sets a user exactly when the strict gate admits one, and the same user |
| Auth.ErrorHandler | backend/middlewares/errorHandler.js:1-9 | the envelope is never a success; its status is the error's non-zero status or 500; its message is the error's or the default; `errors` is present exactly when details are |
| Auth.ErrorHandlerKeepsHttpError | backend/middlewares/errorHandler.js:2-6 | an error with a status and a message is answered with that status and message |
| Auth.ErrorHandlerDefaults | backend/middlewares/errorHandler.js:2-6 | an error with neither is a 500 "Internal Server Error" |
| Chatbot.IntentTable | Code/backend/controllers/chatBotController.js:8-33 | an unknown role uses the user table; no table holds "general" |
| Chatbot.Classify | Code/backend/controllers/chatBotController.js:30-43 | "general" exactly when no intent's keyword occurs in the lower-cased query; otherwise the first intent, in table order, that has a keyword in it |
| Chatbot.ClassifyInTable | Code/backend/controllers/chatBotController.js:30-43 | the intent is "general" or a name from the role's table |
| Chatbot.ClassifyIgnoresCase | Code/backend/controllers/chatBotController.js:32 | classification is blind to letter case |
| Chatbot.UnknownRoleIsUser | Code/backend/controllers/chatBotController.js:33 | a role outside the table classifies as "user" |
| Chatbot.TableOrderDecides | Code/backend/controllers/chatBotController.js:9-43 | for a user, any question mentioning "ticket" is a ticket inquiry, whatever else it mentions, because ticket_inquiry heads the table |
| Chatbot.ChatRole | Code/backend/controllers/chatBotController.js:235 | the role is "guest" exactly without a user, else the user's role |
| Chatbot.CheckMessage | Code/backend/controllers/chatBotController.js:225-239 | a missing or blank message is 400 "Message is required"; otherwise the classification under the caller's role |
| Chatbot.GuestIntentsOnly | Code/backend/controllers/chatBotController.js:22-26 | a guest is only ever given a guest intent or "general" |
| Chatbot.InfoOf | Code/backend/controllers/chatBotController.js:54-62 | a booking's context entry has its unit count and unweighted price sum; the title is present exactly when the event exists |
| Chatbot.SinglesPriceTotal | Code/backend/controllers/chatBotController.js:58-59 | for single-unit lines the unweighted sum is what the lines cost |
| Chatbot.UnweightedPriceDiffers | Code/backend/controllers/chatBotController.js:59 | two VIP tickets at 100 cost 200 but the context reports 100 |
| Chatbot.DatabaseContext | Code/backend/controllers/chatBotController.js:46-110 | each intent fills exactly its own context kind, the organiser intents only for organisers; the ticket context lists every booking of the caller and nothing else, in store order; the search context the first ten upcoming events in store order; the management context one entry per own event; the analytics totals over the own events |
| Chatbot.BookingsOfCaller | Code/backend/controllers/chatBotController.js:53 | exactly the stored bookings of the caller |
| Chatbot.UpcomingEvents | Code/backend/controllers/chatBotController.js:67-69 | exactly the stored events not yet past |
| Chatbot.TicketContext | Code/backend/controllers/chatBotController.js:51-63 | one entry per booking of the caller, in store order |
| Chatbot.TicketContextComplete | Code/backend/controllers/chatBotController.js:53-63 | every booking of the caller has its entry |
| Chatbot.SearchContext | Code/backend/controllers/chatBotController.js:66-77 | min(10, number of upcoming events) entries, the first upcoming events in store order |
| Collab.Collaborate | backend/controllers/collabController.js:7-24 | without an event id the request fails (500); otherwise one pending request between caller and invitee is appended |
| Collab.AllCategories | backend/controllers/collabController.js:38-42 | every non-empty category of some event, each once |
| Collab.Encode | backend/controllers/collabController.js:45-47 | one 0/1 per known category, 1 exactly for the user's categories |
| Collab.AllInterests | backend/controllers/collabController.js:65 | every interest some user lists, each once |
| Collab.AttendedCategories | backend/controllers/collabController.js:57-60 | only non-empty categories of existing events, and the category of every attended existing event with one |
| Collab.UserVector | backend/controllers/collabController.js:50-70 | none exactly for an unknown user; a category bit is 1 exactly for a category the user attended, an interest bit exactly for the user's interests, and the count of confirmed bookings comes last |
| Collab.CategoryBitMeansAttended | backend/controllers/collabController.js:57-63 | a category bit is set only when some confirmed booking of the user is for an event of that category |
| Collab.Candidates | backend/controllers/collabController.js:101-120 | a candidate is listed exactly for each user of the list other than the requester whose vector exists and scores above the threshold, with that user's fields and score |
| Collab.CompatibleUsers | backend/controllers/collabController.js:91-129 | an unknown event answers 500 "Error computing matches", the message the route's catch sends (eventCollabRoutes.js:13-15); no requester vector gives nothing; at most topN other users, highest score first |
| Collab.RankingKeepsEveryCandidate | backend/controllers/collabController.js:120-123 | with room for all, ranking returns every candidate exactly once |
| Collab.Rank | backend/controllers/collabController.js:121-123 | exactly min(topN, candidates) candidates, all from the list, highest score first; no candidate left out scores higher than one kept |
| Collab.CompatibleUsersKeepsBest | backend/controllers/collabController.js:91-129 | with a requester vector, the answer holds exactly min(topN, candidates) users, each one of the scored candidates, and no candidate left out scores higher than one returned |
| Collab.RankKeepsAll | backend/controllers/collabController.js:121-123 | with room for every candidate, ranking returns each one exactly once |
| Cart.FindLine | frontend/src/store/slices/bookingSlice.js:14-16 | the first cart line of the type, none exactly when absent |
| Cart.AddTicket | frontend/src/store/slices/bookingSlice.js:13-28 | one more unit of the existing line, or a new line of one unit at the end; the total is what the lines cost |
| Cart.RemoveTicket | frontend/src/store/slices/bookingSlice.js:29-46 | one unit fewer, the line dropped at its last unit, nothing for an absent type; the total is what the lines cost |
| Cart.ClearBooking | frontend/src/store/slices/bookingSlice.js:50-54 | an empty valid cart with no current booking |
| Cart.AddTicketValid | frontend/src/store/slices/bookingSlice.js:13-28 | adding keeps one line per type, each of at least one unit, and raises the total by the line's unit price |
| Cart.RemoveTicketValid | frontend/src/store/slices/bookingSlice.js:29-46 | removing keeps the cart invariant |
| Cart.RemoveTicketTotal | frontend/src/store/slices/bookingSlice.js:29-46 | removing a unit lowers the total by its unit price |
| Cart.AddThenRemove | frontend/src/store/slices/bookingSlice.js:13-46 | adding a unit and removing it restores the lines |
| EventDetail.AvailableAsWritten | Code/frontend/src/pages/EventDetail.jsx:90-92 | as written, the count shown is stock minus sold |
| EventDetail.Available | Code/frontend/src/pages/EventDetail.jsx:90-92 | corrected count: the stock left, from which any count up to it can be confirmed |
| EventDetail.OfferOf | Code/frontend/src/pages/EventDetail.jsx:264 | "+" adds the ticket with the count shown |
| EventDetail.PlusAddsOne | Code/frontend/src/pages/EventDetail.jsx:263-265 | each "+" adds exactly one unit of its type |
| EventDetail.PlusStaysWithin | Code/frontend/src/pages/EventDetail.jsx:265 | an enabled "+" never picks more than the count shown |
| EventDetail.PickedFitsStock | Code/frontend/src/pages/EventDetail.jsx:263-265 | corrected count: whatever the buttons allow fits the stock |
| EventDetail.AsWrittenCountsSalesTwice | Code/frontend/src/pages/EventDetail.jsx:91 | as written, a confirmation of q units lowers the shown count by 2q, the stock by q |
| EventDetail.AsWrittenBlocksRemainingStock | Code/frontend/src/pages/EventDetail.jsx:91 | 40 left after 60 sales: the page shows -20 and disables "+", though the server confirms all 40 |
| EventsSlice.MergeFilters | frontend/src/store/slices/eventsSlice.js:24-26 | each filter key in the payload replaces the stored one; the others stay |
| EventsSlice.SetFilters | frontend/src/store/slices/eventsSlice.js:24-26 | only the filters change |
| EventsSlice.SetFiltersLaws | frontend/src/store/slices/eventsSlice.js:24-26 | an empty payload changes nothing; a full later payload overrides an earlier one |
| EventsSlice.SetSearch | frontend/src/store/slices/eventsSlice.js:30-32 | only the search text changes |
| EventsSlice.SetSearchIsPatch | frontend/src/store/slices/eventsSlice.js:24-32 | setSearch is setFilters with only a search key |
| EventsSlice.SetEvents | frontend/src/store/slices/eventsSlice.js:33-36 | only the event list changes |
| EventsSlice.SetCurrentEvent | frontend/src/store/slices/eventsSlice.js:37-40 | the current event is a loaded event with the id, none exactly when no loaded event has it; nothing else changes |
| EventsSlice.FindById | frontend/src/store/slices/eventsSlice.js:39 | the first loaded event with the id |
| EventsSlice.ClearCurrentEvent | frontend/src/store/slices/eventsSlice.js:27-29 | no current event; nothing else changes |
| EventsSlice.ViewThenClear | frontend/src/store/slices/eventsSlice.js:27-40 | viewing then clearing is just clearing |
| Discovery.FilteredEvents | frontend/src/pages/EventDiscovery.jsx:48-68 | an event is shown exactly when it is non-null and passes category, price range, title search and location |
| Discovery.FilteredEventsKeepOrder | frontend/src/pages/EventDiscovery.jsx:48-68 | filtering keeps the list order: what an earlier part shows comes before what a later part shows |
| Discovery.InitialFiltersAdmit | frontend/src/pages/EventDiscovery.jsx:52-65 | the initial filters show every event priced up to 1000 |
| Discovery.EmptySearchAdmits | frontend/src/pages/EventDiscovery.jsx:59 | an empty search matches every title |
| Discovery.DiscoverySort | frontend/src/pages/EventDiscovery.jsx:71-84 | date and price ascend, rating and popularity descend, any other key keeps the order |
| Discovery.SortedEvents | frontend/src/pages/EventDiscovery.jsx:71-84 | a permutation of the filtered list ordered by the key, unchanged for an unknown key |
| Discovery.Listed | frontend/src/pages/EventDiscovery.jsx:36-84 | the page lists exactly the loaded events that pass the filters |
| UserDashboard.FilteredBookings | frontend/src/pages/UserDashboard/UserDashboard.jsx:40-53 | a tab lists exactly the bookings passing its test |
| UserDashboard.OtherTabEmpty | frontend/src/pages/UserDashboard/UserDashboard.jsx:50-51 | the profile tab, and any other tab, lists nothing |
| UserDashboard.CountsMatchTabs | frontend/src/pages/UserDashboard/UserDashboard.jsx:33-53 | each label count equals the number of bookings its tab lists |
| UserDashboard.TabsDisjoint | frontend/src/pages/UserDashboard/UserDashboard.jsx:44-49 | no booking is in two tabs |
| UserDashboard.NoTabIffUnlisted | frontend/src/pages/UserDashboard/UserDashboard.jsx:44-49 | a booking is in no tab exactly when it is created for a past event or refunded |
| UserDashboard.CountsPartition | frontend/src/pages/UserDashboard/UserDashboard.jsx:33-36 | the three counts plus the bookings in no tab add up to all bookings |
| OrgDashboard.Keys | frontend/src/pages/OrganizerDashboard.jsx:88 | the header is the first row's keys, in order |
| OrgDashboard.Lookup | frontend/src/pages/OrganizerDashboard.jsx:93 | the value under a key, "undefined" when absent |
| OrgDashboard.Escape | frontend/src/pages/OrganizerDashboard.jsx:93 | escaping never shortens and leaves quote-free text alone |
| OrgDashboard.Quote | frontend/src/pages/OrganizerDashboard.jsx:94 | a quoted field begins and ends with a double quote |
| OrgDashboard.CsvLines | frontend/src/pages/OrganizerDashboard.jsx:88-97 | a header line of the first row's keys, then one line per row under those headers |
| OrgDashboard.ConvertToCsv | frontend/src/pages/OrganizerDashboard.jsx:86-98 | no document exactly for empty data; otherwise the lines joined by newlines |
| OrgDashboard.ParseRecord | frontend/src/pages/OrganizerDashboard.jsx:92-96 | a reader of quoted records; the empty line is the empty record |
| OrgDashboard.ParseBodyEscape | frontend/src/pages/OrganizerDashboard.jsx:93-94 | an escaped value closed by a quote reads back as the value |
| OrgDashboard.ParseFieldsQuoted | frontend/src/pages/OrganizerDashboard.jsx:92-96 | quoted fields joined by commas read back as the values |
| OrgDashboard.DataLineRoundTrip | frontend/src/pages/OrganizerDashboard.jsx:91-96 | every data line reads back as exactly the row's values under the headers |
| OrgDashboard.DisplayedEvents | frontend/src/pages/OrganizerDashboard.jsx:138-141 | 'All' shows every event, any other filter the events of that status |
| OrgDashboard.AllKeepsEverything | frontend/src/pages/OrganizerDashboard.jsx:139 | 'All' keeps the list unchanged |
| OrgDashboard.OnlyPublishedShows | frontend/src/pages/OrganizerDashboard.jsx:138-141 | every listed event is "Published", so any other status filter shows nothing |
| OrgDashboard.TicketsTrend | frontend/src/pages/OrganizerDashboard.jsx:58-61 | one point per recent booking, its units |
| OrgDashboard.SumTrend | frontend/src/pages/OrganizerDashboard.jsx:58-61 | the trend adds up to the units of the recent bookings |
| OrgDashboard.TrendWithinTicketsSold | frontend/src/pages/OrganizerDashboard.jsx:58-61 | the trend never shows more units than the dashboard's tickets sold |
| CollabPanel.FilteredMatches | frontend/src/pages/EventCollaborationPanel.jsx:58-69 | a match is shown exactly when its name or an interest mentions the term and its score is in the bucket |
| CollabPanel.DefaultsShowAll | frontend/src/pages/EventCollaborationPanel.jsx:58-69 | no term and 'all' show every match |
| CollabPanel.BucketsSplit | frontend/src/pages/EventCollaborationPanel.jsx:64-66 | 'high' and 'medium' never overlap and together cover scores from 30 |
| CollabPanel.Invite | frontend/src/pages/EventCollaborationPanel.jsx:43-47 | the invited match becomes pending; no other card changes |
| CollabPanel.InviteIdempotent | frontend/src/pages/EventCollaborationPanel.jsx:43-47 | inviting twice is inviting once |
| CollabPanel.InviteKeepsFilter | frontend/src/pages/EventCollaborationPanel.jsx:43-69 | an invite never moves a card in or out of the filtered list |
| CollabPanel.CompatibilityColor | frontend/src/pages/EventCollaborationPanel.jsx:154-158 | green from 70, yellow from 40, red below |
| CollabPanel.ColourAgainstBuckets | frontend/src/pages/EventCollaborationPanel.jsx:64-66 | green is exactly the 'high' bucket, but a 'medium' 35 is red |
| Wizard.NextStep | frontend/src/components/CreateEvent/CreateEvent.jsx:38-47 | advances exactly below the last step with valid values, merging them; otherwise nothing changes; the step stays in 1..4 |
| Wizard.PrevStep | frontend/src/components/CreateEvent/CreateEvent.jsx:49 | back one step, never below 1, data unchanged |
| Wizard.NextThenPrev | frontend/src/components/CreateEvent/CreateEvent.jsx:38-49 | forward then back returns to the same step |
| Wizard.DraftTickets | frontend/src/components/CreateEvent/CreateEvent.jsx:65-83 | GA and VIP each only when priced above zero, with defaults 100 and 50, nothing sold |
| Wizard.DraftOf | frontend/src/components/CreateEvent/CreateEvent.jsx:85-92 | the draft price is the GA price or 0; capacity defaults to 100 |
| Wizard.Submit | frontend/src/components/CreateEvent/CreateEvent.jsx:99-111 | the request is sent exactly on the last step; earlier submits advance |
| Wizard.PostOnlyOnLastStep | frontend/src/components/CreateEvent/CreateEvent.jsx:99-111 | from step 1, three valid submits advance and the fourth sends the draft |
| Wizard.DraftAgreesWithServer | frontend/src/components/CreateEvent/CreateEvent.jsx:65-92 | with a priced GA, the page's tickets, price and capacity are what the server builds |
| Wizard.VipOnlyDraftRefused | frontend/src/components/CreateEvent/CreateEvent.jsx:67-83 | without a GA price the page drafts a VIP-only catalogue, which the server refuses with 400 |
| ImageUpload.PreviewsOf | frontend/src/pages/CreateEvent.jsx:68-72 | one preview per file, naming it |
| ImageUpload.AddImages | frontend/src/pages/CreateEvent.jsx:40-85 | the old files stay first; the new ones are exactly the accepted chosen files, in the order chosen; the lists stay aligned |
| ImageUpload.Rejected | frontend/src/pages/CreateEvent.jsx:51-61 | the reported files are exactly the chosen files of a wrong type or over 5 MiB |
| ImageUpload.EveryFileAccounted | frontend/src/pages/CreateEvent.jsx:49-63 | each chosen file is added or reported, never both |
| ImageUpload.RemoveAt | frontend/src/pages/CreateEvent.jsx:89-90 | the element at the index leaves, the rest keep their order; an out-of-range index changes nothing |
| ImageUpload.RemoveImage | frontend/src/pages/CreateEvent.jsx:88-91 | the same position leaves both lists, which stay aligned |
| ImageUpload.ClearAllImages | frontend/src/pages/CreateEvent.jsx:94-97 | both lists empty |
| ImageUpload.AddThenRemoveLast | frontend/src/pages/CreateEvent.jsx:40-91 | adding an accepted file and removing it at its position restores the lists |
| ImageUpload.NextReachesLast | frontend/src/pages/CreateEvent.jsx:99-103 | enough presses of "next" reach the last step, and more keep it there |
| UiSlice.ToggleMobileMenu | frontend/src/store/slices/uiSlice.js:20-22 | the menu flag flips; nothing else changes |
| UiSlice.ToggleTwice | frontend/src/store/slices/uiSlice.js:20-22 | toggling twice changes nothing |
| UiSlice.CloseMobileMenu | frontend/src/store/slices/uiSlice.js:23-25 | the menu is closed; nothing else changes |
| UiSlice.CloseThenToggleOpens | frontend/src/store/slices/uiSlice.js:20-25 | after closing, a toggle opens |
| UiSlice.OpenModal | frontend/src/store/slices/uiSlice.js:28-30 | the named modal is active; nothing else changes |
| UiSlice.CloseModal | frontend/src/store/slices/uiSlice.js:31-33 | no modal; nothing else changes |
| UiSlice.OpenThenClose | frontend/src/store/slices/uiSlice.js:28-33 | opening then closing from no modal restores the state |
| UiSlice.ShowToast | frontend/src/store/slices/uiSlice.js:36-38 | the toast is set; nothing else changes |
| UiSlice.HideToast | frontend/src/store/slices/uiSlice.js:39-41 | no toast; nothing else changes |
| UiSlice.SetSearchQuery | frontend/src/store/slices/uiSlice.js:44-46 | only the query changes |
| UiSlice.SetShowLoginNotification | frontend/src/store/slices/uiSlice.js:49-51 | only the popup flag changes |
| UiSlice.SetNotificationData | frontend/src/store/slices/uiSlice.js:54-60 | both lists are always set, a missing one to empty; nothing else changes |
| UiSlice.ShowsServerNotifications | frontend/src/store/slices/uiSlice.js:54-60 | a successful notification answer is stored as the server computed it |
| AuthSlice.Login | frontend/src/store/slices/authSlice.js:12-17 | signed in, holding the user |
| AuthSlice.Logout | frontend/src/store/slices/authSlice.js:18-22 | back to the initial, signed-out state |
| AuthSlice.LoginThenLogout | frontend/src/store/slices/authSlice.js:12-22 | signing in and out returns to the initial state |
| AuthSlice.SetUserDetails | frontend/src/store/slices/authSlice.js:24-31 | payload fields win, other stored fields stay, a user object always results, status unchanged |
| AuthSlice.SetUserDetailsIdempotent | frontend/src/store/slices/authSlice.js:24-31 | applying the same details twice is applying them once |
| AuthSlice.DetailsAfterLogin | frontend/src/store/slices/authSlice.js:12-31 | after login, details keep the user signed in with the merged object |
| AuthSlice.DetailsWhileSignedOut | frontend/src/store/slices/authSlice.js:24-31 | while signed out, details leave a user object with the status still signed out |
| Interests.Toggle | frontend/src/components/EditProfile.jsx:54-63 | the toggled interest is listed exactly when it was not; other interests are untouched; a new one goes last |
| Interests.ToggleNoDuplicates | frontend/src/components/InterestSelectionModal.jsx:28-34 | a toggle keeps the list free of repeats |
| Interests.ToggleTwice | frontend/src/components/EditProfile.jsx:54-63 | toggling twice restores which interests are listed |
| Interests.ClicksNoDuplicates | frontend/src/components/InterestSelectionModal.jsx:21-34 | any click sequence from an empty selection holds no repeats |
| Interests.SessionOf | backend/controllers/userController.js:55-62 | the user object a sign-in leaves in the store has the user's id, name, phone and role, and no interests |
| Interests.InitForm | frontend/src/components/EditProfile.jsx:37-46 | the form starts from the session user's name; its interests are the session's, or empty when the session has none; a missing or zero phone is empty |
| Interests.SessionFormStartsEmpty | frontend/src/components/EditProfile.jsx:11-46 | as written, the editor of any signed-in user starts with no interests selected |
| Interests.Request | frontend/src/components/EditProfile.jsx:69-78 | corrected request: the interests, as a list, are sent exactly for the "user" role |
| Interests.RequestAsSent | frontend/src/components/EditProfile.jsx:69-78 | as written, a "user" save sends the JSON text of the interests, which the backend stores as a one-element list |
| Interests.SaveAsSentStoresText | backend/controllers/userController.js:113-128 | as written, a user who saves the editor unchanged gets the text `[]` stored as their only interest |
| Interests.SessionSaveWipesInterests | frontend/src/components/EditProfile.jsx:42-76 | sending the list instead of its text alone would still wipe the interests of a user who saves unchanged |
| Text.StringifyList | frontend/src/components/EditProfile.jsx:75 | the JSON text of a list is bracketed, and for one element longer than the element by at least four characters |
| Interests.OrganizerKeepsInterests | frontend/src/components/EditProfile.jsx:73-76 | an organiser's update never changes stored interests |
| Interests.SaveUnchangedIsIdentity | frontend/src/components/EditProfile.jsx:42-78 | corrected editor (form filled from the stored interests, list sent): saving the initial form without a new avatar leaves the user unchanged |
| Interests.ModalShown | frontend/src/components/InterestSelectionModal.jsx:26 | the modal renders exactly when shown |
| Interests.SubmitSelection | frontend/src/components/InterestSelectionModal.jsx:36-46 | an empty selection only alerts; otherwise the selection is sent |
| Interests.ModalStoresSelection | frontend/src/components/InterestSelectionModal.jsx:36-46 | what the modal sends, the server stores, without repeats |

## Left out

- Floating point: the cosine similarity, the 20% interest boost, the 0.15 threshold and the rounding of collaborator scores are one parameter `score` of `Collab.Candidates`. The dashboard's average rating and the `toFixed(2)` formatting of revenues are not modelled. Prices are whole numbers, so `parseFloat` of a fractional price is not modelled.
- Cryptography is a parameter: the HMAC-SHA256 of the payment signature (`hmac`), JWT verification (`verify`), and bcrypt hashing and comparison (`Credential`, `Users.Matches`).
- Randomness and the clock are parameters: `Date.now()`, `Math.random()` in booking ids and one-time codes, and the gateway's order id.
- Mongo transactions and sessions: `Payment.VerifyPayment` is one atomic function; a failure leaves the store unchanged, as the aborted transaction does.
- E-mail sending (booking confirmation, new event, one-time code), the language-model calls of the assistant, Cloudinary uploads and `localStorage` are outside the model. The confirmation e-mail is sent after the commit; its failure would turn a committed confirmation into an error answer, which the model does not reflect.
- Users.DayStart: computes midnight in UTC; the server's local time zone is not modelled.
- Text.ToLower: ASCII-only case mapping; JavaScript's full Unicode case mapping is not modelled.
- ImageUpload.AddImages: the previews are taken in file order. The page collects them as each `FileReader` finishes, in an order the browser decides, and the data URLs are not modelled.
- The QR code image, the PDF ticket, the Blob download of the CSV and all date formatting (`formatDate`, `formatDateTime`, `toLocaleDateString`) are left out; dates stay milliseconds.
- frontend/src/pages/CreateEvent.jsx:117 uses `completeEventData` without declaring it, so its `onSubmit` throws before sending. Only the page's image list and step bar are modelled; the request is modelled from the wizard component.
- frontend/src/components/InterestSelectionModal.jsx:52-57 calls the `useSelector` hook inside an event handler, which React refuses at run time. `Interests.ModalStoresSelection` models the request that precedes it.
- EditProfile's generic `handleChange` and its local `userData` update after saving are left out.
- Text.StringifyList: control characters are not escaped; only quotes and backslashes are.
- `setCurrentBooking` and `setLoading` of the booking slice, and the loading and error flags of the other slices, only store their payload and are not modelled.
- The event discovery page's initial `setFilters` from the URL parameters is the same reducer as `EventsSlice.SetFilters` and is not modelled separately.
- `getEvents`' query filters (category, location regex, date, featured, price bounds) run inside MongoDB; the listing models the sort and the page arithmetic (`Events.Paginate`, `Events.PageOf`, `Events.SortEvents`).
- `getEventById`, `getCategories`, `getUserProfile`, `getAllUsers`, `getUserById`, `logoutUser`, `getUserDashboard`, `getOrganizerBookings` and the assistant's health check only read and return stored documents. They are not modelled.
- Wizard.DraftTickets and Events.CreateTickets: a negative `parseInt` quantity is not modelled; quantities are `nat`.
- Organizer.RecentEvents: its own contract states only the length; the order is stated by `Organizer.RecentEventsNewestFirst`.
- Bookings.CreateBooking: booked quantities are whole numbers; the backend does not check their sign, and the model does not carry negative quantities.
- Payment.VerifyPaymentOnlyShrinksStock: holds because booked quantities are whole numbers. A negative quantity, which the backend does not refuse, would pass the stock check (backend/controllers/paymentController.js:80) and raise the stock (lines 87 and 90).
- Events.CreateEvent: the form arrives parsed; a malformed `eventData` JSON text, which the handler answers with 500, is not modelled.
- Events.UpdateEvent: the form also arrives parsed here. backend/controllers/eventController.js:212 parses `eventData` before the lookup and the owner check, so a malformed text answers 500 even for an unknown id or for another organiser's event. The model does not include that path.
- Events.PageOf: the limit is a whole number. backend/controllers/eventController.js:53 hands `Number(limit)` to the store unchecked, and a negative limit is not modelled.
- Events.BackendSort: the lookup `{…}[sortBy]` at backend/controllers/eventController.js:43-48 also finds names every object inherits, such as `toString` or `constructor`. For those it yields a function instead of a sort order, the query refuses it, and the handler answers 500. The model sorts such a request newest first.
- Export.ExportBookingData: the `EVENT_DATE` and `BOOKING_DATE` columns (backend/controllers/organizerController.js:201 and 208) only format dates and are not in the row. Every exported booking is for one of the organiser's events, so the `'N/A'` event name of line 200 does not arise; the model keeps the fallback.
- Attendance: `Attendance.VerifyAttendanceAsWritten` reads the event title for its answer; an event that is gone makes the source fail with 400 through its catch-all. The model answers that case the same way.

## Findings

| source | as written | input that shows it | evidently intended | confidence | as-written member | corrected member |
|---|---|---|---|---|---|---|
| backend/controllers/attendanceController.js:15-21 | sets `attended` and `checkInTime`, which the booking schema does not declare, so the save drops them | any valid QR scanned twice: the second scan is accepted again, and the attendance list shows everybody "Absent" | a ticket checks in once and is listed present afterwards | high; not executed | Attendance.AsWrittenAcceptsSecondScan, Attendance.AsWrittenListAllAbsent | Attendance.CheckInIsOneShot, Attendance.CheckedInListedPresent |
| backend/controllers/organizerController.js:83 | sorts the summaries by `createdAt`, which they do not carry, so every comparison is NaN and the order stays as stored | two own events stored oldest first: the older one leads the "recent" list | the ten most recently created events, newest first | high; not executed | Organizer.RecentEventsOrderWitness | Organizer.RecentEventsNewestFirst |
| backend/controllers/userController.js:195 | stores the new password unhashed, while login compares with bcrypt | a successful reset with any new password: logging in with it fails | the new password is hashed, as at registration | high; not executed | Users.ResetAsWrittenLocksOut | Users.ResetThenLogin |
| frontend/src/components/EditProfile.jsx:45-75 | fills the form from the signed-in user, whose object (backend/controllers/userController.js:55-62) has no interests, and sends the interests as JSON text, which the backend (backend/controllers/userController.js:128) stores as given | a user with interests ["music"] opens the editor and saves it unchanged: the form starts with no interests, the text `[]` is sent, and the stored interests become the single string `[]` | the editor starts from the user's interests and they are stored as the chosen list | high; not executed | Interests.SessionFormStartsEmpty, Interests.RequestAsSent, Interests.SaveAsSentStoresText, Interests.SessionSaveWipesInterests | Interests.ProfileSession, Interests.Request, Interests.SaveUnchangedIsIdentity |
| Code/frontend/src/pages/EventDetail.jsx:91 | shows `quantity - sold`, but confirmations already take sold units off `quantity` | 40 left after 60 sold: the page shows -20 and disables "+" | show `quantity`, the stock still for sale | high; not executed | EventDetail.AsWrittenBlocksRemainingStock | EventDetail.PickedFitsStock |
