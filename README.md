# Nail-salon booking: verified model of the booking and payment core

This project models the data logic of a small nail-salon booking site in
Dafny. Clients pick an open slot, submit a booking and pay through a hosted
checkout. The owner manages bookings and availability from a dashboard.
The model covers:

- **The payment webhook** (`pages/api/stripe-webhook.js`). A completed
  checkout session becomes one paid, confirmed `bookings` row. Metadata
  without a date or start label is refused, and so is a label that does
  not convert. A session that already has a row is skipped, and so is a
  slot the conflict check rejects. Every verified delivery is acknowledged
  with 200.
- **The confirmation route** (`pages/api/confirm-payment.js`). It checks
  that the session is paid and polls the table at most ten times for the
  webhook's row. It confirms the row if needed and answers with the row's
  id. It has its own `to24h` and `addHours` helpers, which the handler
  never calls; they differ from the webhook's in the cases shown below.
- **The owner dashboard** (`pages/dashboard.js`):
  - the end time both booking forms store;
  - `convertTo24Hr` and `formatTime`;
  - the selection toggle;
  - month generation from the weekly template;
  - the in-place weekly-template editor;
  - the "upcoming" filter, and "Today's Schedule" filtered and sorted by start time;
  - the owner's edit of a booking.
- **The public booking page** (`pages/index.js`):
  - the open slots (availability minus booked slots);
  - the date list and the time options;
  - the two requests its form sends with one generated booking id.
- **The update-SMS route** (`pages/api/send-update-sms.js`). It texts a
  date line only when the date changed and a time line only when the
  time changed.
- **The two middlewares** (`middleware.ts`, `pages/middleware.js`). Both
  send unauthenticated requests for guarded paths to `/login`, carrying
  `redirectedFrom`.

Module layout:

| module | role |
|---|---|
| Wrappers | Option and Result |
| Text | digits, padding, trimming, `split` |
| Js | `Number`, `parseInt`, truthiness, `===`, `String`, `%` |
| TimeLabels | the two 12-hour label patterns, `HH:MM:SS` text, the UTC hour shift, `formatTime` |
| Bookings | the `bookings` table as a store object: rows, lookup by session, update by id |
| Checkout | the checkout session as the payment provider reports it |
| `StripeWebhook`, `ConfirmPayment` | the two payment routes |
| Dashboard | the dashboard |
| PublicBooking | the booking page, and the metadata the checkout route builds from it |
| UpdateSms | the update-SMS route |
| `Urls`, `DashboardGuard`, `PagesGuard` | the request URL and the two middlewares |

Things outside the program become parameters:

- the database's answers and failures;
- the payment provider's session and signature check;
- the text-message provider's answer;
- `Date` parsing (`timestamp`) and the weekday of the first of the month;
- ISO and locale date text (`isoDate`, `formatDate`).

## Model

| member | source | states |
|---|---|---|
| Js.ParseInt | pages/dashboard.js:36 | `parseInt` is NaN exactly when no digit follows optional leading space and one sign |
| Js.ParseIntSigned | pages/dashboard.js:37 | after leading white space, a `-` or `+` and a digit run followed by a non-digit read as the run's value, negated for `-` |
| Js.ParseIntNatText | pages/dashboard.js:36 | a printed or two-digit-padded number, followed by a non-digit, reads back as that number |
| Js.StringToNumberDigits | pages/api/stripe-webhook.js:46 | `Number` of an unsigned digit run is its decimal value |
| Js.StringToNumberNonNumeric | pages/api/confirm-payment.js:30 | `Number` of text starting with a letter, other than `Infinity`, is NaN |
| Js.Rem | pages/dashboard.js:727 | JavaScript `%` keeps the dividend's sign and stays within the divisor |
| Text.Split | pages/dashboard.js:35 | `split` yields at least one part, and no part holds the separator |
| Text.JoinSplit | pages/dashboard.js:35 | joining the parts of `split` with the separator gives the string back |
| Text.Pad2 | pages/api/stripe-webhook.js:40-41 | `padStart(2, "0")` of a number gives at least two digits, exactly two below 100 |
| Text.Pad2Value | pages/api/stripe-webhook.js:40-41 | the padded text reads back as the number |
| TimeLabels.MatchStrict | pages/api/stripe-webhook.js:30 | what the strict 12-hour pattern captures is one or two hour digits and optionally two minute digits |
| TimeLabels.MatchStrictSound | pages/api/stripe-webhook.js:30 | every accepted string is label text, then white space, then AM or PM in any case |
| TimeLabels.MatchStrictComplete | pages/api/stripe-webhook.js:30 | every such label text with any white space and suffix is accepted and read back exactly |
| TimeLabels.MatchLoose | pages/dashboard.js:689 | what the dashboard's looser pattern captures is well formed |
| TimeLabels.MatchLooseSound | pages/dashboard.js:689 | every accepted string is label text, with or without the colon, then white space and a suffix |
| TimeLabels.MatchLooseComplete | pages/dashboard.js:689 | label text with or without the colon (so `830PM` and `12:PM`), any white space and any-case suffix is read back |
| TimeLabels.Hour24 | pages/api/stripe-webhook.js:37-38 | for a 12-hour hour in 1..12: the 24-hour hour is below 24, at least 12 exactly for PM, and maps back to the 12-hour hour |
| TimeLabels.Minute | pages/api/stripe-webhook.js:34 | the minute is `parseInt` of the captured minute digits, so below 100, and 0 when the label has none |
| TimeLabels.SplitClockText | pages/api/stripe-webhook.js:46 | splitting a printed `HH:MM:00` at `:` gives the two padded fields and `00` |
| TimeLabels.ClockFieldsOfClock | pages/api/stripe-webhook.js:46 | `split(":").map(Number)` reads a printed clock back as its hour and minute |
| TimeLabels.ShiftClock | pages/api/stripe-webhook.js:47-50 | the UTC date arithmetic always leaves an hour below 24 and a minute below 60 |
| TimeLabels.ShiftClockInRange | pages/api/stripe-webhook.js:47-50 | for a minute in 0..59 the shift keeps the minute and adds the hours modulo 24 |
| TimeLabels.ShiftClockTextOfClock | pages/api/stripe-webhook.js:45-52 | the hour-adding helper moves a printed clock's hour by `n` modulo 24 and keeps the minute |
| TimeLabels.FormatTime | pages/dashboard.js:723-730 | `formatTime` is empty exactly for the empty value |
| TimeLabels.FormatTimeOfClock | pages/dashboard.js:723-730 | an `HH:mm` clock displays as its hour in 1..12, the minute text as written, and PM exactly for hours 12..23 |
| Bookings.WithSession | pages/api/stripe-webhook.js:93-97 | a row is returned exactly when it is in the table and carries the session id |
| Bookings.WithSessionExact | pages/api/stripe-webhook.js:93-97 | the rows returned keep table order and every copy of a matching row, so the selection is exactly the table's matching rows |
| Bookings.LookupSession | pages/api/confirm-payment.js:78-82 | `maybeSingle` finds no row exactly when no row has the session id; the single row found is the only row with that id; it reports several exactly when two table positions carry the id |
| Bookings.TwoRowsWithSession | pages/api/confirm-payment.js:78-82 | the session's selection has two or more rows exactly when two table positions carry the id, equal rows included |
| Bookings.AtMostOneRow | pages/api/stripe-webhook.js:92-102 | under unique session ids, a session has at most one row |
| Bookings.AppendNewSession | pages/api/stripe-webhook.js:144-147 | appending a row whose session has no row keeps session ids unique |
| Bookings.Apply | pages/api/confirm-payment.js:109 | a patch keeps the id and session; confirming sets confirmed and paid and nothing else; an owner edit keeps confirmed, sets paid, date, start and end from the form, and writes the form's columns over the old ones, keeping the rest |
| Bookings.UpdateWhere | pages/api/confirm-payment.js:107-110 | an update by id keeps every row's position, id and session, and leaves rows with other ids unchanged |
| Bookings.SameIdSameRow | pages/api/confirm-payment.js:110 | with distinct ids, an id names one position |
| Bookings.ConfirmIdempotent | pages/api/confirm-payment.js:106-116 | confirming a row twice equals confirming it once |
| Bookings.UpdateKeepsSessions | pages/dashboard.js:920-924 | any update by id keeps session ids unique |
| Bookings.ConfirmedLookup | pages/api/confirm-payment.js:106-116 | after a session's single row is confirmed, the session's lookup finds the confirmed row |
| Bookings.SessionsAfterConfirm | pages/api/confirm-payment.js:107-110 | confirming by id then filtering by session equals filtering then confirming |
| Bookings.BookingStore.constructor | pages/api/stripe-webhook.js:15-18 | the store starts empty and valid |
| Bookings.BookingStore.Insert | pages/api/stripe-webhook.js:147 | the row is appended under a fresh id that no earlier row has; ids stay distinct |
| Bookings.BookingStore.Update | pages/api/confirm-payment.js:107-110 | the rows become the update by id of the old rows; ids stay distinct |
| StripeWebhook.To24hPassThrough | pages/api/stripe-webhook.js:21-27 | the empty label gives null; an `HH:MM` label gains `:00` |
| StripeWebhook.To24hOfLabel | pages/api/stripe-webhook.js:29-42 | a 12-hour label becomes the padded `HH:MM:00` of its 24-hour hour and minute |
| StripeWebhook.To24hRejects | pages/api/stripe-webhook.js:30-31 | a label matching neither form gives null |
| StripeWebhook.To24hNoRangeCheck | pages/api/stripe-webhook.js:33-42 | a PM hour above 12 is not refused and yields an hour of 25 or more |
| StripeWebhook.HoursToAdd | pages/api/stripe-webhook.js:48 | `Number(hours) \|\| 2` is never 0 and is the number whenever that is a nonzero number |
| StripeWebhook.AddHoursToClock | pages/api/stripe-webhook.js:45-52 | on a clock the end is the start hour plus the hours, modulo 24, with the minute kept |
| StripeWebhook.ValidateRejects | pages/api/stripe-webhook.js:76-89 | a blank or missing date or start label is refused, and so is an unconvertible label |
| StripeWebhook.ValidateClock | pages/api/stripe-webhook.js:85-90 | a session whose start converts books that start and the end the duration later, modulo 24 |
| StripeWebhook.ValidateLabel | pages/api/stripe-webhook.js:77-90 | a date and a 12-hour label are accepted; start and end are the converted clock and the clock the duration later |
| StripeWebhook.PlannedRow | pages/api/stripe-webhook.js:72-145 | a planned row comes only from a POST of a completed checkout with valid metadata, no conflict and, if the lookup worked, not exactly one earlier row for the session (with several, `maybeSingle` gives no data and the row is inserted); it is paid, confirmed, tagged with the session and timed by the slot |
| StripeWebhook.RedeliveryInsertsNothing | pages/api/stripe-webhook.js:99-102 | a session that already has its row is not inserted again |
| StripeWebhook.DeliveryKeepsOneRow | pages/api/stripe-webhook.js:92-147 | a delivery leaves at most one row for its session when there was at most one |
| StripeWebhook.PlanKeepsSessionsUnique | pages/api/stripe-webhook.js:92-147 | with a working lookup, the inserted row keeps session ids unique across the table |
| StripeWebhook.RecordSession | pages/api/stripe-webhook.js:72-166 | the table gains exactly the planned row under a fresh id, with its SMS, unless a step refuses or the insert fails; then nothing changes; unique sessions are kept |
| StripeWebhook.Handle | pages/api/stripe-webhook.js:54-173 | 405 for a non-POST, 400 for a failed signature, 200 otherwise; the table changes only by the planned row |
| ConfirmPayment.To24hOfLabel | pages/api/confirm-payment.js:15-25 | a 12-hour label becomes the padded `HH:MM:00` of its 24-hour hour and minute |
| ConfirmPayment.To24hRefusesClock | pages/api/confirm-payment.js:15-18 | an `HH:MM` clock, which the webhook accepts, gives null here |
| ConfirmPayment.AddHoursToClock | pages/api/confirm-payment.js:27-32 | on a clock the end is the start hour plus `Number(hrs \|\| 2)` modulo 24, with the minute kept |
| ConfirmPayment.AddHoursDefaults | pages/api/confirm-payment.js:27-30 | a falsy hour count means two hours; a non-numeric one prints `NaN:NaN:00` |
| ConfirmPayment.ZeroHoursDifferFromWebhook | pages/api/confirm-payment.js:30 | a duration of `"0"` adds no hours here and two in the webhook |
| ConfirmPayment.WordHoursDifferFromWebhook | pages/api/confirm-payment.js:30 | a duration the model's `Number` reads as NaN makes the end `NaN:NaN:00` here and adds two hours in the webhook |
| ConfirmPayment.WordIsNotANumber | pages/api/confirm-payment.js:30 | a word such as `abc` is such a duration |
| ConfirmPayment.FormatPhone | pages/api/confirm-payment.js:152 | the phone starts with `+1`; it is unchanged exactly when it already did, otherwise `+1` is prefixed |
| ConfirmPayment.FormatPhoneIdempotent | pages/api/confirm-payment.js:152 | normalising twice is normalising once |
| ConfirmPayment.FirstClear | pages/api/confirm-payment.js:77-96 | the first lookup attempt that gets through, or the retry limit when none does |
| ConfirmPayment.Poll | pages/api/confirm-payment.js:73-96 | at most ten retries; no row exactly when all retries are used; a row found is the session's single row |
| ConfirmPayment.PollFirstFound | pages/api/confirm-payment.js:77-103 | without a row, either the session has no single row or all ten lookups failed |
| ConfirmPayment.WaitForBooking | pages/api/confirm-payment.js:73-96 | the retry loop ends with the row and retry count of `Poll` |
| ConfirmPayment.ConfirmRejects | pages/api/confirm-payment.js:35-45 | 405, missing session id, unpaid session, failed provider call and row not found leave the table alone and send nothing |
| ConfirmPayment.ConfirmedRow | pages/api/confirm-payment.js:98-116 | a 200 names the session's row; afterwards that row is confirmed (and paid if it was unconfirmed); rows change only when it was unconfirmed |
| ConfirmPayment.ConfirmIdempotent | pages/api/confirm-payment.js:105-116 | calling again after a 200 changes no row and, when a lookup gets through, gives the same answer |
| ConfirmPayment.Handle | pages/api/confirm-payment.js:34-184 | the route's reply, new rows and SMS are those of `Confirm`; the store stays valid |
| Dashboard.EndTimeOfClock | pages/dashboard.js:34-37 | for a clock start and a whole duration, the end time is the padded sum and the start's minute; it reads back as the plain sum, which is not wrapped past 23 |
| Dashboard.EndTimeUnreadableDuration | pages/dashboard.js:36-37 | a duration `parseInt` cannot read makes the end time start with `NaN:` |
| Dashboard.ConvertTo24HrRejects | pages/dashboard.js:687-690 | non-strings, the empty string and text the pattern refuses give `00:00` |
| Dashboard.ConvertTo24HrOfLabel | pages/dashboard.js:687-697 | an accepted label converts to its padded 24-hour hour and minute |
| Dashboard.FormatConverted | pages/dashboard.js:687-730 | displaying a converted label with hour 1..12 gives back that hour, the minute and the label's AM or PM |
| Dashboard.Without | pages/dashboard.js:838 | the filter keeps every copy of the other ids, in order, and no copy of the id |
| Dashboard.ToggleSelected | pages/dashboard.js:837-839 | the id's membership flips, other ids are unaffected, and an absent id is appended |
| Dashboard.WithoutAbsent | pages/dashboard.js:838 | filtering out an absent id changes nothing |
| Dashboard.ToggleTwice | pages/dashboard.js:837-839 | toggling an unselected id twice restores the selection |
| Dashboard.WithoutAppend | pages/dashboard.js:838 | filtering out an id after appending it equals filtering it out before |
| Dashboard.FirstFor | pages/dashboard.js:876 | `find` stops at the first template for the weekday, if there is one |
| Dashboard.OpenDays | pages/dashboard.js:870-882 | the days kept are exactly the days 1..n whose first template is open, ascending |
| Dashboard.MonthPlan | pages/dashboard.js:870-889 | the inserts are one row per open day, in day order, with the ISO date and the template's hours |
| Dashboard.MonthPlanStep | pages/dashboard.js:870-889 | one more day adds that day's row exactly when it is open |
| Dashboard.MonthPlanSkipsClosed | pages/dashboard.js:878-880 | a day is skipped exactly when its weekday has no template or a closed one |
| Dashboard.BuildMonthInserts | pages/dashboard.js:867-889 | the loop builds exactly the month plan |
| Dashboard.MonthResult | pages/dashboard.js:861-904 | the month counts as generated exactly when the schedule loaded, some day is open and the insert succeeds; the count is the number of rows |
| Dashboard.AvailabilityTable.GenerateMonth | pages/dashboard.js:854-905 | the table gains the month's rows in one insert exactly when the outcome is generated, and is unchanged otherwise |
| Dashboard.Edited | pages/dashboard.js:1687-1725 | an edit sets only the edited field |
| Dashboard.EditSchedule | pages/dashboard.js:1687-1725 | the copy is a new list holding the same entry objects; the entry at the index has the edited field set, also as seen from the old list |
| Dashboard.Upcoming | pages/dashboard.js:711-718 | kept rows are exactly those with a date and a start whose timestamp is after now minus five minutes, every copy, in order |
| Dashboard.AfterFetchBookings | pages/dashboard.js:699-721 | a failed read leaves the list unchanged; otherwise the list is `Upcoming` of the data (none for null data) |
| Dashboard.DatedOn | pages/dashboard.js:1085 | the filter keeps every copy of today's rows, in order, and nothing else |
| Dashboard.InsertByStart | pages/dashboard.js:1086 | one insertion keeps the rows sorted by start time and adds the row to the multiset |
| Dashboard.SortByStart | pages/dashboard.js:1086 | the sort is a permutation, ascending by start time |
| Dashboard.TodaysSchedule | pages/dashboard.js:1083-1086 | today's schedule holds exactly the rows dated today, each once per occurrence, ascending by start time |
| Dashboard.UpcomingHasStartTimes | pages/dashboard.js:711-713 | every row the upcoming filter keeps has a start time, so the sort's comparison never meets a missing one |
| Dashboard.EditedRow | pages/dashboard.js:36-40 | an edited row holds the form's date, start, paid flag and duration, and its end time is the one its own start and stored duration give |
| Dashboard.HandleUpdateBooking | pages/dashboard.js:920-934 | the edited row is patched with the form and its computed end time unless the update fails; then nothing changes |
| Dashboard.EditCanUnpayConfirmed | pages/dashboard.js:213-220 | an edit can leave a confirmed booking unpaid |
| PublicBooking.OpenSlots | pages/index.js:40-44 | the slots kept are exactly those no booking takes, every copy, in order |
| PublicBooking.AfterFetchAvailability | pages/index.js:23-47 | either read failing leaves the offered slots unchanged; otherwise they are `OpenSlots` of the two reads |
| PublicBooking.OpenSlotsExact | pages/index.js:40-44 | a slot is kept exactly when no booking has its date and time |
| PublicBooking.FirstIndex | pages/index.js:52 | the position of a value's first occurrence, or the length if absent |
| PublicBooking.Distinct | pages/index.js:52 | `[...new Set(xs)]` holds every value once, in order of first appearance |
| PublicBooking.Dates | pages/index.js:52 | the date list has one entry per slot: that slot's date |
| PublicBooking.AvailableDates | pages/index.js:52 | every offered date once, in order of first offer |
| PublicBooking.OnDate | pages/index.js:54-55 | the filter keeps every copy of the slots on the selected date, in order, and nothing else |
| PublicBooking.TimeOptions | pages/index.js:54-56 | the options are the times of the selected date's slots, in order |
| PublicBooking.Submit | pages/index.js:73-127 | both requests carry the same generated id and the same form fields; the checkout request is sent exactly when the booking request succeeded |
| PublicBooking.SessionMetadataRefused | pages/api/create-checkout-session.js:39-51 | the metadata the booking page leads to is refused by the webhook, since it has no `start_time` |
| PublicBooking.SessionMetadataFixed | pages/api/create-checkout-session.js:39-51 | the corrected metadata keeps every field and adds the start under `start_time` |
| PublicBooking.SessionMetadataFixedAccepted | pages/api/stripe-webhook.js:77-90 | with the corrected metadata, a dated 12-hour label is accepted and books the converted start and an end two hours later |
| PublicBooking.FixedMetadataFields | pages/api/stripe-webhook.js:77-78 | the webhook reads the form's date and time from the corrected metadata, and no duration |
| PublicBooking.LabelMetadataAccepted | pages/api/stripe-webhook.js:77-90 | metadata with a date, a 12-hour label and no duration books two hours |
| PublicBooking.NoDurationTwoHours | pages/api/stripe-webhook.js:90 | without a duration the webhook adds two hours |
| UpdateSms.DisplayTime | pages/api/send-update-sms.js:13-20 | a falsy time displays as empty; a string is formatted; any other value cannot be split |
| UpdateSms.DisplayTimeOfClock | pages/api/send-update-sms.js:13-20 | an `HH:mm` time displays as the 12-hour hour, the minute and PM exactly from noon on |
| UpdateSms.RenderAppend | pages/api/send-update-sms.js:33-43 | the text of two piece lists in a row is the concatenation of their texts |
| UpdateSms.MessagePartsShape | pages/api/send-update-sms.js:33-43 | the greeting opens and the footer closes; a date line appears exactly when the date changed and a time line exactly when the time changed; each names the new value; date before time |
| UpdateSms.BuildMessage | pages/api/send-update-sms.js:33-43 | the appended message is the rendering of the message pieces |
| UpdateSms.Append | pages/api/send-update-sms.js:36 | appending a piece's text extends the rendering by that piece |
| UpdateSms.RenderOne | pages/api/send-update-sms.js:33 | one piece renders as its own text |
| UpdateSms.Handle | pages/api/send-update-sms.js:1-69 | 405 for non-POST and 400 without phone or name; otherwise a crash (500) when the new time cannot be formatted, 200 when the provider delivers, 500 with the provider's error when it refuses, and 500 "Failed to send SMS" when the request throws; the text goes to the given phone |
| Urls.DropKey | middleware.ts:20 | the pairs left are exactly those with another key |
| Urls.GetParam | middleware.ts:20 | `get` finds nothing exactly when no pair has the key |
| Urls.SetParam | middleware.ts:20 | after `set`, `get` gives the value, the key occurs once, other pairs are unchanged, and an absent key is appended |
| Urls.DropKeyTwice | middleware.ts:20 | dropping a key twice equals dropping it once |
| DashboardGuard.LoginUrl | middleware.ts:18-20 | the redirect goes to `/login` with `redirectedFrom` set to the old path, other parameters kept |
| DashboardGuard.Middleware | middleware.ts:5-25 | paths outside `/dashboard` pass; a guarded path passes exactly with a session cookie, and is otherwise redirected to the login URL |
| DashboardGuard.HasSessionIsAnyCookie | middleware.ts:12-15 | the session test holds exactly when one of the three cookie names is present |
| DashboardGuard.MatchedPathsGuarded | middleware.ts:9-27 | every path the matcher routes here is redirected without a session |
| DashboardGuard.PrefixNotSegment | middleware.ts:9 | the guard tests a character prefix, so the function would redirect `/dashboardX` too, although the matcher (middleware.ts:27) never routes it here |
| PagesGuard.Middleware | pages/middleware.js:4-19 | redirect exactly for a `/dashboard` or `/admin` path without the access or refresh cookie, to `/login` with `redirectedFrom` |
| PagesGuard.GuardsDiffer | pages/middleware.js:7 | a refresh cookie alone passes this guard but not the root one |
| PagesGuard.AdminOnlyHere | pages/middleware.js:10-11 | `/admin` paths are guarded here and passed by the root middleware |

## Left out

- Numbers: JavaScript numbers are modelled as integers or NaN. Fractions,
  exponents and the 53-bit range are not modelled; a fractional or
  exponent string reads as NaN under `Number`.
- Js.StringToNumber: `Infinity`, `+Infinity` and `-Infinity`, and text
  with a `0x`, `0b` or `0o` prefix, read as NaN. JavaScript gives
  ±Infinity or the hexadecimal, binary or octal value. So a webhook
  duration of `Infinity` prints `NaN:NaN:00` in JavaScript, while the
  model adds two hours.
- Js.ParseInt: models `parseInt(s, 10)`. The dashboard's end time
  (pages/dashboard.js:37 and 292) calls `parseInt` without a radix, which
  reads a `0x` prefix as hexadecimal; the model reads `0x1A` there as 0.
- ConfirmPayment.WordHoursDifferFromWebhook: holds for the strings the
  model's `Number` reads as NaN, which include `Infinity` and the `0x`
  forms above.
- Dates:
  - `new Date(...).getTime()` is the parameter `timestamp`.
  - The weekday of the first of the month and the ISO date of a day are parameters.
  - `toLocaleDateString` is the parameter `formatDate`.
  - Time zones are not modelled.
- External services are parameters, or their outcome is an argument:
  - the payment provider's signature check and session retrieval;
  - the database reads, inserts and updates, including their failures;
  - the `bookings_conflict` function, which is opaque (only its answer is an argument);
  - the email and text-message providers.
- ConfirmPayment.Handle: does not model a webhook that inserts the row
  while the loop is polling. The rows are fixed for the whole loop.
- ConfirmPayment.Handle: the owner email is not modelled. Its failure is
  caught and cannot change the reply.
- Dashboard.TodaysSchedule: `localeCompare` is modelled as code-unit
  order, and the stability of the sort is not stated. Callers must supply
  a start time on today's rows, because the source throws on a missing
  one. `Dashboard.UpcomingHasStartTimes` shows the list always meets this.
- Dashboard.EditSchedule: React's `setScheduleSettings` and re-rendering are
  not modelled. The method returns the copied list.
- Dashboard.HandleUpdateBooking: the alerts, `setEditingBooking` and the
  re-fetch afterwards are not modelled. The form's defaults are not
  modelled either (`booking.duration || 1` and the other fields).
- Not modelled in the dashboard: the new-appointment form's insert
  (only its end time, which is the same computation), deletion, and the
  other UI-only handlers.
- PublicBooking.Submit: form reading, the toast, the confetti and the
  redirect to the checkout URL are not modelled. The `/api/book` and
  checkout routes are not part of this model, except the checkout
  metadata map.
- UpdateSms.Handle: when the new time is not a string, `split` throws
  outside the `try`. This is modelled as a `Crashed` reply with status
  500, which is the framework's answer to an uncaught error.
- Middleware: which of the two middleware files the framework actually
  loads is not modelled. Both are modelled.
- StripeWebhook.Handle: logging and the text-message provider's answer
  are not modelled. The SMS handed over is returned, and a send failure
  cannot change the reply.

## Findings

| source | as written | input that shows it | evidently intended | confidence | as-written member | corrected member |
|---|---|---|---|---|---|---|
| pages/api/create-checkout-session.js:47 | the checkout metadata carries the start time under `time`, but the webhook (pages/api/stripe-webhook.js:78) reads `start_time` and acknowledges without inserting when it is missing | any booking from the booking page, e.g. date `2025-03-01`, time `10AM` | the start also under `start_time`, so the webhook inserts the paid booking from 10:00 to 12:00 | not executed | PublicBooking.SessionMetadataRefused | PublicBooking.SessionMetadataFixedAccepted |
