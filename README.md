# PC club booking engine — a Dafny model

This project models the booking and account logic of a computer-club web
app. The club has a hall of 30 gaming workstations in six rows of five, in
three price tiers. A user books a workstation for an hour slot. The app
derives each workstation's status (`available`, `booked`, `occupied`,
`maintenance`) from the bookings. When a booking has run to its end, the app
completes it and credits the user with rating, hours and a level. The user
can cancel a booking with a refund from two hours out. They can also buy
snacks and merchandise from a cart and join tournaments.

The model has these parts:

- `Derivation`: the pure function that completes elapsed sessions, rewards
  the user and re-derives every workstation's status (`updatePCStatusesFromBookings`).
- `AppStore.Store`: a class holding the app's state, one method per store action.
- `Registry`: the initial hall.
- One module per page:
  - `Home`: slot generator, slot availability, next free slot, grid, confirm action;
  - `HallMap`: status filter, rows, row categories, click action;
  - `Profile`: upcoming and past bookings, totals, refund preview, countdown;
  - `BookingPage`: the time picker and the booking action;
  - `TournamentsPage`: the join guard, the button text and the join action;
  - `ShopPage`: the category filter and the cart guards.
- `Hall`: what two pages share (the free-time countdown, the session price,
  the three-call booking sequence).
- Supporting modules:
  - `Clock`: millisecond constants and JavaScript's hour/minute split;
  - `Format`: `HH:00` labels and their parsing;
  - `Seqs`: `filter`, `find`, `reduce` and a sort by key;
  - `Wrappers`: `Option` and `Math.max(0, x)`.

Instants are integer milliseconds. The clock reading `now` is a parameter
of every operation that reads the clock. Ids that the app takes from
`Date.now()` come from a counter field, `Store.nextId`.

## Model

| member | source | states |
|---|---|---|
| Wrappers.Max0 | src/store/useStore.js:239 | `Math.max(0, x)`: never negative, never below `x`, and equal to `x` or 0 |
| Seqs.Filter | src/store/useStore.js:15-25 | `filter` keeps exactly the elements satisfying the predicate, never lengthening the list |
| Seqs.FilterAppend | src/store/useStore.js:15-25 | filtering distributes over concatenation (relative order is kept) |
| Seqs.FilterKeepsOrder | src/store/useStore.js:15-25 | `filter` keeps relative order: a kept element listed before a distinct kept element comes before it in the result |
| Seqs.FilterPartition | src/pages/Profile.jsx:12-20 | two complementary filters split a list: their lengths add up to its length |
| Seqs.FindIndex | src/store/useStore.js:268 | `find`: nothing iff no element matches, otherwise the first match |
| Seqs.SortBy | src/store/useStore.js:85-91 | the sort by a numeric key returns a sorted permutation of its input |
| Seqs.SumOfAppend | src/store/useStore.js:399 | the `reduce` sum of a concatenation is the sum of the parts |
| Clock.HourRemainder | src/pages/Home.jsx:119 | JavaScript's `diff % 3600000`: it takes the sign of `diff`, lies strictly inside one hour, and differs from `diff` by whole hours |
| Clock.SplitOfNonNegative | src/pages/Home.jsx:240-242 | for a non-negative difference, hours are ≥ 0, minutes lie in [0, 60), and hours·h + minutes·min ≤ diff < hours·h + (minutes+1)·min |
| Clock.SplitOfNegative | src/pages/Profile.jsx:37-39 | for a negative difference, hours are negative and minutes lie in [-60, 0] |
| Clock.CountdownOf | src/pages/Profile.jsx:34-47 | "Xч Yм" iff diff ≥ 1 h, "Yм" iff 1 min ≤ diff < 1 h, the fallback otherwise; the values shown bracket the difference to the minute |
| Format.HourLabel | src/pages/Booking.jsx:27-30 | `String(h).padStart(2,'0') + ':00'` is five characters with `:` at index 2 |
| Format.ParseHourLabel | src/pages/Booking.jsx:39-40 | parsing the hour of a label `HH:00` gives back `HH` |
| Format.HourLabelInjective | src/pages/Home.jsx:53 | different hours have different labels |
| Registry.InitialPCs | src/store/useStore.js:120-138 | the initial hall has 30 workstations |
| Registry.InitialPCsIdsAndPrices | src/store/useStore.js:122-136 | ids are 1 to 30 in order, the hourly price is 300/200/150 by tier of ten, and `lastUsed` is empty |
| Registry.InitialPCsFillGrid | src/store/useStore.js:132-135 | positions are pairwise distinct and cover the 6 × 5 grid exactly |
| Derivation.WithDefaults | src/store/useStore.js:9-12 | a rating of 0 becomes 1500 and a level of 0 becomes 1; non-zero values are kept; no other field changes |
| Derivation.CompletedSessions | src/store/useStore.js:15-25 | the sessions to complete are exactly the bookings that are not completed, have a start and a non-zero length, and have ended by now |
| Derivation.Sweep | src/store/useStore.js:50-62 | the sweep keeps length and order and changes only `completed`/`completedAt` |
| Derivation.SweepOutcome | src/store/useStore.js:27-62 | after derivation, every elapsed booking is completed and stamped with now; every other booking is unchanged in place |
| Derivation.NothingElapsedAfter | src/store/useStore.js:50-62 | after derivation no booking is left to complete at the same instant |
| Derivation.SessionRatingTotal | src/store/useStore.js:31-37 | the batch rating gain is 10 per session plus 5 per booked hour |
| Derivation.RewardOutcome | src/store/useStore.js:27-48 | with completions, rating, hours and level are credited as above and the level is ⌊hours/100⌋+1; without, only defaults apply; the balance never changes |
| Derivation.DeriveKeepsProgress | src/store/useStore.js:39-48 | derivation keeps rating and hours non-negative and the level consistent with the hours; hours, level and rating never decrease |
| Derivation.EarliestIndex | src/store/useStore.js:84-92 | the chosen booking has the smallest start, and no earlier one in the list ties it (the head after a stable sort) |
| Derivation.LiveFor | src/store/useStore.js:67-77 | a workstation's live bookings are exactly those for it that are not completed, have a start and a non-zero length, and end after now |
| Derivation.DerivePCStatus | src/store/useStore.js:65-113 | a status is `occupied` iff a live booking has started (or, with none live, it already was), `booked` iff there are live bookings and none has started, and `available` otherwise; nothing but the status changes |
| Derivation.DerivedStatus | src/store/useStore.js:65-113 | the same status rule, stated over the bookings as they were before the sweep |
| Derivation.Derive | src/store/useStore.js:4-116 | derivation keeps the workstations' and bookings' count, changes workstations only in status and bookings only in completion, and keeps balance, id and name |
| Derivation.DerivePCIdempotent | src/store/useStore.js:65-113 | re-deriving one workstation's status changes nothing |
| Derivation.DeriveIdempotent | src/store/useStore.js:4-116 | deriving twice at the same instant equals deriving once, for any non-negative rating and hours |
| AppStore.Restock | src/store/useStore.js:406-412 | each shop item in the cart loses one unit, whatever its count in the cart; a stock already at or below 0 ends at 0; other items and all other fields are unchanged |
| AppStore.WithoutBooking | src/store/useStore.js:328 | removal keeps exactly the bookings with a different id |
| AppStore.Enroll | src/store/useStore.js:453-457 | every tournament with the id gains one participant, the others are unchanged |
| AppStore.CancelNoteFor | src/store/useStore.js:321-358 | the refund message iff start − now ≥ 2 h; the no-refund message iff 0 < start − now < 2 h; the plain message otherwise |
| AppStore.DerivedAfterCancel | src/store/useStore.js:328-335 | after removal and re-derivation, no booking has the cancelled id, and prices stay non-negative |
| AppStore.Cancel | src/store/useStore.js:309-361 | fails iff the id is unknown, then changing nothing; otherwise the message as above, a refund of the price iff the start is ≥ 2 h away, and the new state is exactly the derivation of the bookings without the id and the user credited with the refund; completed bookings are not refused |
| AppStore.CancelOutcome | src/store/useStore.js:325-335 | after a successful cancellation the balance is raised by exactly the refund, no booking has the id, and every other booking is kept in order, completed if it has elapsed |
| AppStore.RefundKeepsConsistent | src/store/useStore.js:325-335 | crediting a non-negative refund, removing a booking and re-deriving keep the store invariant |
| AppStore.CancelKeepsConsistent | src/store/useStore.js:325-335 | a cancellation keeps the store invariant (non-negative balance and prices, level consistent with hours) |
| AppStore.WithStatus | src/store/useStore.js:363-369 | every workstation with the id takes the status, `lastUsed` being stamped with now only on `occupied`; every other workstation is unchanged, and the count is kept |
| AppStore.Store.constructor | src/store/useStore.js:140-226 | the initial account (balance 10 000 000, rating 1500, level 1, no hours), the initial hall, 8 shop items, 3 tournaments, 5 online users, and empty bookings, cart, history and requests |
| AppStore.Store.UpdateBalance | src/store/useStore.js:237-244 | the balance becomes max(0, balance + amount) and is returned; nothing else changes |
| AppStore.Store.AddBooking | src/store/useStore.js:246-263 | appends the booking uncompleted with a fresh id and re-derives; no overlap check and no debit; the balance is unchanged |
| AppStore.Store.CompleteSession | src/store/useStore.js:266-307 | refuses an unknown or completed booking, leaving everything unchanged; otherwise credits 10 + 5·duration rating and the hours, recomputes the level without defaults, and completes every booking with that id |
| AppStore.Store.CancelBooking | src/store/useStore.js:309-361 | the reply and the new workstations, bookings and user are exactly those of `Cancel` on the old state; the store invariant is kept |
| AppStore.Store.UpdatePCStatus | src/store/useStore.js:363-369 | the workstations become exactly `WithStatus` of the old ones; nothing else changes |
| AppStore.Store.RefreshPCStatuses | src/store/useStore.js:372-385 | writes back the derivation of the current state; the store invariant is kept |
| AppStore.Store.AddToCart | src/store/useStore.js:387-389 | appends the item with a new cart id; no stock check |
| AppStore.Store.RemoveFromCart | src/store/useStore.js:391-393 | keeps exactly the cart entries with another cart id |
| AppStore.Store.ClearCart | src/store/useStore.js:395 | the cart becomes empty |
| AppStore.Store.PurchaseCart | src/store/useStore.js:397-438 | succeeds iff balance ≥ total and the cart is non-empty; on success it debits the total, restocks, records one purchase and empties the cart; on failure nothing changes |
| AppStore.Store.JoinTournament | src/store/useStore.js:440-465 | checks, in order: not found, full, insufficient funds, each with no change; on success debits the fee once and enrolls |
| AppStore.Store.SendChatRequest | src/store/useStore.js:597-623 | fails iff the target is not online; otherwise appends one request from the user to the target, with no duplicate check |
| Hall.InRow | src/pages/HallMap.jsx:131 | a row holds exactly the workstations with that row number |
| Hall.PCFreeTime | src/pages/HallMap.jsx:47-89 | nothing iff the workstation is `available` or no booking for it with a start and a length ends after now; otherwise the end of a holding booking whose start is the smallest and that no earlier-listed holding booking ties (the head of the stable sort), which is after now, shown as the countdown to it |
| Hall.EarliestHolderFirst | src/pages/HallMap.jsx:50-67 | the booking chosen among the holding ones is, in the whole list, the first holding booking with the smallest start |
| Hall.LiveBookingShowsFreeTime | src/pages/Home.jsx:210-251 | a workstation the derivation marks busy because of a live booking always shows a free time |
| Hall.SessionPrice | src/pages/Home.jsx:266 | zero without a workstation; never negative for a non-negative price and duration |
| Hall.PlaceBooking | src/pages/Booking.jsx:51-53 | the store's workstations, bookings and user become exactly `Placed` of the old ones, and the id counter advances; the store invariant is kept for a non-negative price |
| Hall.Placed | src/pages/Booking.jsx:51-53 | the three calls add exactly one (new, uncompleted) booking after the derived old ones, leave the workstation `booked` whatever derivation made of it and every other workstation as derived, and set the balance to max(0, balance − price) with the rest of the user as derived |
| Home.SlotAt | src/pages/Home.jsx:49-70 | the k-th slot starts (currentHour + 1 + k) hours after today's midnight, is labelled with its hour of day, and is today's iff that hour is before 24 |
| Home.GenerateTimeSlots | src/pages/Home.jsx:43-73 | exactly 24 slots: the k-th is the one described above |
| Home.SlotsOrderedAndDistinct | src/pages/Home.jsx:43-73 | later slots start strictly later and no two share a label |
| Home.GeneratedLabelsDistinct | src/pages/Home.jsx:72 | the 24 generated labels are pairwise distinct |
| Home.OverlapsMeansSharedInstant | src/pages/Home.jsx:98 | for non-empty intervals, the strict overlap test holds iff the two intervals share an instant |
| Home.TimeSlotAvailability | src/pages/Home.jsx:78-105 | empty without a workstation; otherwise one entry per label, true iff the (last) slot with it overlaps no booking of the workstation whose start is still ahead |
| Home.DayFullyBookedIff | src/pages/Home.jsx:134-137 | with distinct labels, the day is fully booked iff no slot is free |
| Home.NextAvailableTime | src/pages/Home.jsx:108-132 | nothing iff no slot is open; otherwise the countdown to the first open slot in slot order |
| Home.HomeRow | src/pages/Home.jsx:254-264 | one row of the grid: exactly the workstations of that row, as a permutation, sorted by column; `pcsByRow` (`HomeRows`) is rows 1 to 3 in order, each exactly this |
| Home.HandleConfirmBooking | src/pages/Home.jsx:182-207 | books iff there is a workstation, a time, a slot with that label and balance ≥ price (availability is not rechecked); then the new state is exactly `Placed` for a booking at the slot's start and the balance drops by exactly the price; otherwise nothing changes |
| Home.CanBookConfirms | src/pages/Home.jsx:267 | whenever `canBook` enables the confirm button, for the availability computed from the offered slots, the confirm handler books |
| HallMap.FilteredPCs | src/pages/HallMap.jsx:25-30 | `all` keeps the whole list; a status keeps exactly the workstations with it |
| HallMap.HallRows | src/pages/HallMap.jsx:130-131 | six rows; row r holds exactly the filtered workstations with row number r |
| HallMap.HallRowsCoverAll | src/pages/HallMap.jsx:130-131 | when all rows are 1..6, the six rows show each workstation exactly once |
| HallMap.InitialHallShownOnce | src/pages/HallMap.jsx:130-131 | under `all`, the map shows each of the 30 initial workstations exactly once |
| HallMap.GroupRows | src/pages/HallMap.jsx:134-144 | categories are distinct; each group holds exactly its rows in input order and is non-empty; every row's category has a group |
| HallMap.GroupedStep | src/pages/HallMap.jsx:136-142 | one step of the loop (join the category's group, or open it at the end) keeps that grouping invariant |
| HallMap.CategoryNamesDistinct | src/pages/HallMap.jsx:37-44 | different categories have different display names, so grouping by name is grouping by category |
| HallMap.HallCategories | src/pages/HallMap.jsx:37-44 | rows 1–2, 3–4 and 5–6 form three different categories, and no hall row falls into the fallback |
| HallMap.HandlePCClick | src/pages/HallMap.jsx:121-127 | an `available` workstation opens its booking page; any other only opens its details |
| Profile.ActiveBookings | src/pages/Profile.jsx:12-15 | exactly the uncompleted bookings starting after now, sorted by start |
| Profile.PastBookings | src/pages/Profile.jsx:17-20 | exactly the bookings that have started by now or are completed |
| Profile.ActivePastPartition | src/pages/Profile.jsx:12-20 | with every booking dated, each booking is in exactly one of the two lists, and their lengths add up |
| Profile.UndatedOpenBookingHidden | src/pages/Profile.jsx:12-20 | an undated, uncompleted booking appears in neither list |
| Profile.TotalSpentCountsAll | src/pages/Profile.jsx:22 | when every completed booking has a start that is not after now, the total spent is the sum of all prices |
| Profile.TotalSpentBounds | src/pages/Profile.jsx:22 | with non-negative prices, 0 ≤ total spent ≤ the sum of all prices |
| Profile.ShownHours | src/pages/Profile.jsx:23 | the stored hours when non-zero; never negative when the stored hours are not |
| Profile.ShownHoursFromHistory | src/pages/Profile.jsx:23 | with no stored hours, the hours shown are the sum of the durations of the completed bookings among the past ones |
| Profile.CanRefundMatchesCancel | src/pages/Profile.jsx:50-55 | the refund preview holds exactly when `cancelBooking` refunds |
| Profile.TimeUntilBooking | src/pages/Profile.jsx:34-47 | shows "soon" iff less than a minute remains |
| Profile.RefundableShowsHours | src/pages/Profile.jsx:34-55 | a refundable booking always shows at least two whole hours |
| BookingPage.TimeLabelsReadBack | src/pages/Booking.jsx:27-30 | each of the 24 offered labels reads back as its own hour, so all differ |
| BookingPage.StartInstant | src/pages/Booking.jsx:38-40 | defined exactly when an hour can be read from the label; the instant is that many hours after the chosen midnight (the meaning for offered labels is `OfferedTimeStart`) |
| BookingPage.OfferedTimeStart | src/pages/Booking.jsx:38-40 | an offered time starts on the chosen day, at that hour sharp |
| BookingPage.HandleBooking | src/pages/Booking.jsx:33-56 | refused iff balance < price, no workstation, a workstation not `available`, or no time, and then nothing changes; otherwise the new state is exactly `Placed` for a booking at that start and the price is debited exactly; no overlap or past-time check |
| BookingPage.CanBookFromMap | src/pages/Booking.jsx:33 | `canBook` accepts a workstation exactly when the hall map's click sends it to the booking page, given funds for the price and a chosen time |
| TournamentsPage.ButtonLabel | src/pages/Tournaments.jsx:36-38 | join iff funds, a seat and `open`; else "no seats" iff full; else "no funds"; else "unavailable" |
| TournamentsPage.CanJoinPassesGuards | src/pages/Tournaments.jsx:36-38 | `canJoin` is the page's join guard plus status `open`; for the store's current copy of the tournament, an enabled button meets none of the store's refusals |
| TournamentsPage.HandleJoin | src/pages/Tournaments.jsx:8-13 | acts iff balance ≥ fee and there is a seat (status ignored), else nothing changes; when it acts, the store's join runs on its own record (enrolling and debiting once iff found, not full and affordable), then the page's fee is debited again, clamped at 0; the rest of the user is unchanged; for the current tournament the balance ends at max(0, b − 2·fee) |
| TournamentsPage.HandleJoinOnce | src/pages/Tournaments.jsx:8-13 | the same action debiting once: when it acts, the store's join alone decides, so the user changes only in balance and the tournaments are enrolled exactly when the join succeeds; for the current tournament the balance is b − fee, never negative |
| ShopPage.FilteredItems | src/pages/Shop.jsx:24-28 | `all` keeps every item; a category keeps exactly its items |
| ShopPage.CartTotalSnoc | src/pages/Shop.jsx:30-32 | adding an entry raises the cart total by its price |
| ShopPage.AddEnabledAfterPurchase | src/pages/Shop.jsx:138 | after a purchase, the add button of an item in the cart stays enabled exactly when more than one unit was in stock; other items keep their button state |
| ShopPage.BuyEnabledMatchesPurchase | src/pages/Shop.jsx:252 | the buy button is enabled exactly when `purchaseCart` succeeds |

## Left out

- Rendering, animation, navigation, modals and message timers are left out. Only the value each handler computes or the store change it makes is modelled.
- Zustand's `create`/`set`/`get` become fields of one class. The pages' 60-second `setInterval` refresh is `Store.RefreshPCStatuses(now)` called by the environment.
- Time zones and daylight saving are not modelled. Local midnight (`today`, `dayStart`) and the local hour are parameters. A day is 24 hours. `toLocaleTimeString` output is represented by the instant it formats.
- `Date.now()` ids come from the counter `Store.nextId`. Two actions in the same millisecond would collide in the source; the model never does.
- `Math.random` in blind-date pairing, `findBlindDatePair`, `toggleDeadHourNotifications`, `setUser`, `addOnlineUser`, the `messages` list and the notification flags are left out. They are social features outside the booking engine.
- The earlier duplicate `sendChatRequest` key (src/store/useStore.js:468-506) is dead: the later key overrides it in the object literal. The same holds for the first `findBlindDatePair`.
- Cosmetic fields (`avatar`, `image`, `games`, `achievements`, `status: 'confirmed'`/`'pending'`) are not modelled.
- A booking date that is `null`, missing or unparseable is `None`. It compares false with every instant, as an invalid `Date` does. A `null` date, which JavaScript reads as the epoch, is not distinguished.
- `parseInt` is modelled for labels that start with a digit. Leading whitespace and signs are not modelled.
- Durations are natural numbers. A falsy duration is 0. Numbers are unbounded integers; floating point does not arise for the offered prices and durations.
- The `!pc` and `Array.isArray` guards are not modelled: the model has no null values.
- The Shop and Profile handlers (`handleAddToCart`, `handlePurchase`, `handleCancelBooking`) only forward to `Store.AddToCart`, `Store.PurchaseCart` and `Store.CancelBooking`, which are modelled.
- The Home page's `stats` and the status colours and labels are presentation only.
- QRCode.jsx and Social.jsx are not part of this model.

## Findings

| source | as written | input that shows it | evidently intended | confidence | as-written member | corrected member |
|---|---|---|---|---|---|---|
| src/pages/Tournaments.jsx:10-11 | `joinTournament` already debits the entry fee, then `updateBalance(-entryFee)` debits it again | balance 1000, tournament "CS2 Weekly" (fee 500, 12 of 16): the balance ends at 0 | the fee is paid once: the balance ends at 500 | high, not executed | TournamentsPage.HandleJoin | TournamentsPage.HandleJoinOnce |
