# rentcar-demo: a verified model of the booking, catalogue and support core

rentcar-demo is a car-rental web site written in Next.js and TypeScript, with a
Supabase (PostgREST) back end. This project models its core in Dafny and proves
properties of the model. The core has five parts:

- **Reservations.** A guest fills in the booking form. The form checks the fields and
  prices the rental with a 5% launch discount. It then asks the reservation service to
  create a `pending` reservation with a `RENT-YYYYMMDD-XXXX` number. The availability
  calendar loads the vehicle's booked ranges for the next three months and disables
  those days. The confirmation modal summarises the booking. The history page finds a
  guest's bookings by email.
- **Vehicle catalogue.** It covers the vehicle list and the availability check of the
  vehicle service. The category, location and brand lists fall back to fixed defaults.
  It also covers the category and search filters of the vehicles page and the home
  page's vehicle section, and the cyclic carousel with its autoplay.
- **Consultations.** A quick consultation and a three-step quote request are both
  filed through the consultation service. Each gets a `CONS<ms>` number. A stored row
  is normalised into the record the pages use.
- **Support board.** Notices and community posts are stored by the support service.
  A guest's post waits for moderation, and its password is stored base64-encoded. The
  board page lists approved posts with a tag-free preview. The detail view shows a
  post line by line. The admin page approves, rejects, deletes, filters and counts
  posts.
- **Icon lookup.** A name is lower-cased and mapped to one of 27 icons. Anything else
  gets the alert icon.

**How the code is represented**

- Each remote table is a class. Its rows are a `seq` field, and every service call
  that writes is a method with a `modifies` clause.
- Each React component with state is a class. Its handlers are methods on that
  class, so `setState` becomes assignment to a field.
- Pure helpers are functions, and query filters are predicates.
- The clock, `Math.random`, generated ids and the store's success or failure are
  parameters (`nowMs`, `r`, `id`, `storeOk`/`storeError`).
- Dates are day numbers. The module `Dates` proves that the source's `YYYY-MM-DD`
  strings and their string comparison name and order days the same way.

## Model

| member | source | states |
|---|---|---|
| BookingService.RandomSuffix | src/lib/bookingService.ts:29 | `Math.floor(Math.random() * 9999)` is the integer part of r·9999 and never exceeds 9998 |
| BookingService.DateDigitsShape | src/lib/bookingService.ts:28 | the date part is the zero-padded year, month and day: eight digits with the dashes removed |
| BookingService.ReservationNumberShape | src/lib/bookingService.ts:26-30 | the reservation number is 18 characters: `RENT-`, the eight date digits, `-`, and four digits that read back as the random suffix |
| BookingService.ReservationNumberInjective | src/lib/bookingService.ts:26-30 | two equal reservation numbers have the same date and the same random suffix |
| BookingService.CreatedBookingCarriesForm | src/lib/bookingService.ts:33-51 | the booking returned after creation carries every form field and the amount, with status `pending` and equal creation and update times |
| BookingService.TimeOr | src/lib/bookingService.ts:145-146 | a non-empty time is kept; the empty time, the only falsy string, gives the fallback |
| BookingService.HistoryView | src/lib/bookingService.ts:137-153 | a history entry agrees with the created booking's mapping in every field but the times; an empty start time shows as 09:00, an empty end time as 18:00, any other time is kept |
| BookingService.HistoryViews | src/lib/bookingService.ts:137-153 | the history list maps each row, in order, to its history entry |
| BookingService.HistoryTimesPresent | src/lib/bookingService.ts:145-146 | history entries never show an empty time, and a stored time is shown unchanged |
| BookingService.Ranges | src/lib/bookingService.ts:233 | the booked-date result lists each selected row's start and end date, in order |
| BookingService.OrConditionAlwaysHolds | src/lib/bookingService.ts:96 | for a well-formed row and a proper query range, the OR-joined date condition is always true |
| BookingService.OverlapImpliesOrCondition | src/lib/bookingService.ts:96 | every row that really overlaps the range also passes the OR condition |
| BookingService.IdIndex | src/lib/bookingService.ts:172 | finds the first row with the id, and is None exactly when no row has it |
| BookingService.SetStatus | src/lib/bookingService.ts:166-174 | the update sets the status and update time of the matching rows and leaves every other row as it was |
| BookingService.SetStatusKeepsIds | src/lib/bookingService.ts:166-174 | a status update keeps every id, so distinct ids stay distinct |
| BookingService.ReservationTable.constructor | src/lib/bookingService.ts:33-34 | the reservation table starts empty |
| BookingService.ReservationTable.CreateBooking | src/lib/bookingService.ts:24-82 | on success, exactly the new pending row is appended and its booking returned; on a store error, the table is unchanged and the fixed error message is thrown |
| BookingService.ReservationTable.CheckVehicleAvailability | src/lib/bookingService.ts:85-109 | as written: available iff no row of the vehicle that is pending or confirmed satisfies the OR date condition; a store error throws |
| BookingService.ReservationTable.CheckVehicleAvailabilityIntended | src/lib/bookingService.ts:85-109 | corrected: available iff no pending or confirmed row of the vehicle overlaps the range |
| BookingService.ReservationTable.GetCustomerBookings | src/lib/bookingService.ts:112-158 | returns exactly the history entries of the rows with the guest email, as a multiset, newest first; a store error throws |
| BookingService.ReservationTable.UpdateBookingStatus | src/lib/bookingService.ts:161-186 | the row with the id gets the new status and the update time, and the updated row is returned; a missing id or a store error throws and changes nothing |
| BookingService.ReservationTable.GetBookingById | src/lib/bookingService.ts:189-222 | a missing id gives null (PGRST116), not an error; a found row has the id and is in the table; other store errors throw |
| BookingService.ReservationTable.GetVehicleBookedDates | src/lib/bookingService.ts:225-249 | returns the ranges of the vehicle's pending or confirmed rows that overlap the window, which is an AND of the two date conditions |
| BookingService.HistoryMembership | src/lib/bookingService.ts:112-158 | an entry is listed iff it is the history entry of a stored row with that email |
| BookingService.AvailabilityIgnoresDates | src/lib/bookingService.ts:96 | with well-formed rows, the check as written reports the vehicle free iff it has no pending or confirmed reservation at all, whatever the dates |
| BookingService.FinishedRowsNeverBlock | src/lib/bookingService.ts:95 | cancelled and completed reservations never block a vehicle |
| BookingService.IntendedAvailabilityMatchesCalendar | src/lib/bookingService.ts:225-237 | the corrected check says free exactly when the calendar's booked-date query returns nothing |
| BookingService.AvailabilityCounterexample | src/lib/bookingService.ts:96 | a confirmed reservation on June 10-15 blocks a July 1-3 request under the OR condition, though the two do not overlap |
| VehicleService.GetVehicles | src/lib/vehicleService.ts:66-96 | returns the vehicles with the requested status (all of them when none is given), newest first; an error gives the empty list |
| VehicleService.GetVehiclesMembership | src/lib/vehicleService.ts:66-96 | a vehicle is listed iff the store answered, it is in the table and its status matches |
| VehicleService.CheckVehicleAvailability | src/lib/vehicleService.ts:149-166 | available iff no confirmed row of the vehicle satisfies the OR date condition; the store's error is rethrown |
| VehicleService.PendingBlocksOnlyInBookingService | src/lib/vehicleService.ts:153 | a pending reservation blocks the vehicle in the booking service's check but not in this one |
| VehicleService.ConfirmedQueryNarrower | src/lib/vehicleService.ts:149-166 | when this check says taken, the booking service's check also finds a blocking row |
| VehicleService.ConfirmedAvailabilityIgnoresDates | src/lib/vehicleService.ts:154 | with well-formed rows, the vehicle is available iff it has no confirmed reservation at all, whatever the dates |
| VehicleService.Items | src/lib/vehicleService.ts:192-196 | each listed item carries its row's id and name, in order |
| VehicleService.ActiveOrDefaults | src/lib/vehicleService.ts:170-229 | the result is either the defaults or the active rows; an error gives the defaults, and a non-empty active list is used as it is |
| VehicleService.GetVehicleCategories | src/lib/vehicleService.ts:170-229 | never empty: either the six default categories or items that come from active rows |
| VehicleService.GetVehicleLocations | src/lib/vehicleService.ts:233-289 | never empty: either the five default branches or items that come from active rows |
| VehicleService.ActiveItemsFromTable | src/lib/vehicleService.ts:192-196 | every item built from the table comes from one of its active rows |
| VehicleService.CategoriesFromStore | src/lib/vehicleService.ts:210 | when the store has an active row, its active rows are used in full |
| VehicleService.GetVehicleBrands | src/lib/vehicleService.ts:292-309 | the brand table, or nothing on an error |
| BookingModal.WithFieldOnlyThatField | src/components/booking/BookingModal.tsx:86-91 | an input change sets that one field and leaves the others unchanged |
| BookingModal.EmailPatternOneAt | src/components/booking/BookingModal.tsx:117 | an address accepted by the email pattern has exactly one `@` and no white space |
| BookingModal.EmailExamples | src/components/booking/BookingModal.tsx:117 | the pattern accepts `kim@rent.kr` and rejects addresses with no dot after the `@`, an empty local part, an empty domain label or a trailing dot |
| BookingModal.EndDateRuleIsChronological | src/components/booking/BookingModal.tsx:125-129 | comparing the date strings with `<` rejects the end date exactly when it is an earlier day than the start |
| BookingModal.NameErrorRule | src/components/booking/BookingModal.tsx:105-107 | the name error is set iff the trimmed name is empty |
| BookingModal.PhoneErrorRule | src/components/booking/BookingModal.tsx:109-113 | the phone error is set iff the phone is blank or has a character other than digits, `-`, `+`, white space or parentheses; a blank phone is reported as missing |
| BookingModal.EmailErrorRule | src/components/booking/BookingModal.tsx:115-119 | the email error is set iff the address is blank or fails the pattern; a blank address is reported as missing |
| BookingModal.StartError | src/components/booking/BookingModal.tsx:121-123 | the start-date error is set iff no start date is chosen |
| BookingModal.EndError | src/components/booking/BookingModal.tsx:125-129 | the end-date error is set iff no end date is chosen, or it sorts before the start date; the message says which |
| BookingModal.BlankIsMissingNotMalformed | src/components/booking/BookingModal.tsx:109-113 | a blank phone gets the "missing" message, not the "malformed" one |
| BookingModal.CalculateDays | src/components/booking/BookingModal.tsx:156-165 | the day count is at least 1; for two dates it is end minus start plus one when that is positive, and 1 otherwise |
| BookingModal.CalculateDaysInclusive | src/components/booking/BookingModal.tsx:156-165 | for real dates the count includes both ends, and a reversed range counts one day |
| BookingModal.CalculateTotal | src/components/booking/BookingModal.tsx:168-173 | the total is the daily rate times the day count, or 0 without a rate |
| BookingModal.Round | src/components/booking/BookingModal.tsx:454 | `Math.round` of a fraction: the result is within one half of it, with halves rounded up |
| BookingModal.FinalAmountCorrected | src/components/booking/BookingModal.tsx:459 | corrected: the final amount plus the shown discount always equals the total |
| BookingModal.CorrectedDiffersOnlyOnTies | src/components/booking/BookingModal.tsx:454-459 | the corrected final amount is the shown one, except for subtotals of 10 modulo 20, where it is one won less |
| BookingModal.DiscountPlusFinal | src/components/booking/BookingModal.tsx:454-459 | as written: discount plus final amount equals the total, except when total mod 20 is 10, where it is one more |
| BookingModal.DiscountMismatchExample | src/components/booking/BookingModal.tsx:454-459 | for a total of 10 the page shows discount 1 and final amount 10; the corrected final amount is 9 |
| BookingModal.June2024FullDates | src/components/booking/BookingModal.tsx:36 | June 10 and June 12, 2024 are written `2024-06-10` and `2024-06-12` |
| BookingModal.PriceExample | src/components/booking/BookingModal.tsx:156-173 | June 10 to 12 at 70,000 a day is 3 days and 210,000, with a 10,500 discount and a 199,500 final amount |
| BookingModal.ClearError | src/components/booking/BookingModal.tsx:93-98 | clears that field's error and keeps every other error |
| BookingModal.BookingModalState.constructor | src/components/booking/BookingModal.tsx:38-51 | the form starts with today's start date, 09:00 to 18:00, no errors, and nothing being submitted |
| BookingModal.BookingModalState.Close | src/components/booking/BookingModal.tsx:64-80 | closing resets the form for the current vehicle, clears the errors and the submitting flag |
| BookingModal.BookingModalState.HandleInputChange | src/components/booking/BookingModal.tsx:86-99 | sets the field and clears only its error |
| BookingModal.BookingModalState.ValidateForm | src/components/booking/BookingModal.tsx:102-133 | the errors become the five field errors, and the form is valid iff there are none |
| BookingModal.BookingModalState.HandleSubmit | src/components/booking/BookingModal.tsx:136-153 | the errors shown are those of the submitted form; the form reaches onBookingSubmit iff it satisfies every field rule, so an invalid form never does; the modal closes iff the submission succeeds; the submitting flag ends false |
| BookingModal.NoErrorsIffValid | src/components/booking/BookingModal.tsx:102-133 | there are no errors iff every field rule holds |
| BookingModal.InitialFormInvalid | src/components/booking/BookingModal.tsx:38-48 | the initial form never validates |
| BookingCalendar.DaysOfMembership | src/components/booking/BookingCalendar.tsx:60-63 | the day loop adds exactly the days from the start to the end, both included |
| BookingCalendar.CoveredMembership | src/components/booking/BookingCalendar.tsx:56-64 | a day is unavailable iff some loaded range contains it |
| BookingCalendar.EmptyRangeAddsNothing | src/components/booking/BookingCalendar.tsx:60 | a range whose end is before its start adds no day |
| BookingCalendar.IsDateDisabled | src/components/booking/BookingCalendar.tsx:94-106 | only month tiles are disabled: past days always, and other days iff they are unavailable |
| BookingCalendar.TileClassName | src/components/booking/BookingCalendar.tsx:109-127 | a month tile is marked `unavailable-date`, `today`, both joined by a space, or nothing; other views get no class |
| BookingCalendar.DateChangeReport | src/components/booking/BookingCalendar.tsx:80-91 | a full range reports its two dates; a single date reports itself twice; anything else reports nothing |
| BookingCalendar.SingleDateReport | src/components/booking/BookingCalendar.tsx:87-89 | a single chosen date is reported as the same valid date string twice |
| BookingCalendar.SelectedDays | src/components/booking/BookingCalendar.tsx:263-287 | as written, on a range that ends at the last millisecond of its last day: the count shown is the last day's number minus the first's, plus two |
| BookingCalendar.SelectedDaysCorrected | src/components/booking/BookingCalendar.tsx:287 | corrected, measured between the two days' midnights: at least one iff the range is in order |
| BookingCalendar.SelectedDaysCountsDays | src/components/booking/BookingCalendar.tsx:287 | for an ordered selection the corrected count is the number of selected days and equals the booking form's day count of the two reported dates |
| BookingCalendar.SelectedDaysOvercounts | src/components/booking/BookingCalendar.tsx:263-287 | as written, the count shown is one more than the days selected and one more than the form charges for |
| BookingCalendar.SelectedDaysExample | src/components/booking/BookingCalendar.tsx:287 | June 10 to 12, 2024 shows 4 days where 3 are selected; a single day shows 2 |
| BookingCalendar.DaysOfSize | src/components/booking/BookingCalendar.tsx:60-63 | the day loop adds end minus start plus one days |
| BookingCalendar.QueryWindow | src/components/booking/BookingCalendar.tsx:45-50 | the query window starts today and spans three calendar months, 89 to 92 days |
| BookingCalendar.CalendarState.constructor | src/components/booking/BookingCalendar.tsx:24-26 | nothing is selected, no day is unavailable, and loading is on |
| BookingCalendar.CalendarState.LoadUnavailableDates | src/components/booking/BookingCalendar.tsx:36-77 | without a vehicle nothing happens; otherwise the unavailable days become the days covered by the booked ranges in the window, or none after a failure, and loading ends |
| BookingCalendar.CalendarState.HandleDateChange | src/components/booking/BookingCalendar.tsx:80-91 | stores the selection and reports it as described by DateChangeReport |
| BookingCalendar.UnavailableDaysAreBooked | src/components/booking/BookingCalendar.tsx:53-64 | every unavailable day lies in a pending or confirmed reservation of the vehicle that overlaps the window |
| BookingCalendar.BookedDaysAreUnavailable | src/components/booking/BookingCalendar.tsx:53-64 | every day of such a reservation is unavailable |
| BookingCalendar.FailedLoadDisablesNothingAhead | src/components/booking/BookingCalendar.tsx:67-71 | after a failed load, no day from today on is disabled |
| BookingSuccess.MissingPartHides | src/components/booking/BookingSuccessModal.tsx:25 | the modal renders only when both the booking and the vehicle are present |
| BookingSuccess.SuccessDays | src/components/booking/BookingSuccessModal.tsx:44-49 | the printed day count is at least 1 iff the range is in order, and exactly 1 iff it is a single day |
| BookingSuccess.SuccessDaysMatchesForm | src/components/booking/BookingSuccessModal.tsx:44-49 | for an ordered range it agrees with the booking form's day count; for a reversed one it is below 1 while the form shows 1 |
| BookingSuccess.FormatTime | src/components/booking/BookingSuccessModal.tsx:36-38 | the shown time is the first five characters of the stored time, or all of it when shorter |
| BookingSuccess.FormatTimeShapes | src/components/booking/BookingSuccessModal.tsx:36-38 | `HH:MM:SS` becomes `HH:MM`, `HH:MM` stays, and formatting twice changes nothing |
| BookingSuccess.StatusText | src/components/booking/BookingSuccessModal.tsx:99 | `pending` reads 확인 대기 and any other status is shown as it is |
| BookingSuccess.StatusTextInjective | src/components/booking/BookingSuccessModal.tsx:99 | different statuses show different texts, except that a status spelled 확인 대기 shows the same text as pending |
| BookingSuccess.DownloadFileName | src/components/booking/BookingSuccessModal.tsx:109 | the file name is the fixed prefix, the first eight characters of the id, and `.txt` |
| BookingSuccess.DownloadFileNameKeepsPrefix | src/components/booking/BookingSuccessModal.tsx:109 | two bookings get the same file name iff their ids agree in the first eight characters |
| BookingHistory.StatusBadge | src/app/booking-history/page.tsx:65-74 | each of the five statuses gets its own label and colour; an unknown status shows itself in grey, except a name the map inherits from Object.prototype, which skips the `\|\|` fallback and leaves label and colour undefined, and exactly those |
| BookingHistory.BadgeLabelsDistinguish | src/app/booking-history/page.tsx:65-74 | different known statuses get different labels |
| BookingHistory.GrayBadges | src/app/booking-history/page.tsx:65-74 | the badge is grey iff the booking is completed or its status is unknown and not an inherited member name |
| BookingHistory.InheritedStatusBypassesFallback | src/app/booking-history/page.tsx:73 | the statuses "constructor" and "toString" get a badge with neither label nor colour |
| BookingHistory.HistoryFormatTime | src/app/booking-history/page.tsx:61-63 | times are cut to five characters, as on the confirmation modal |
| BookingHistory.HistoryPage.constructor | src/app/booking-history/page.tsx:14-17 | no bookings, not loading, not yet searched |
| BookingHistory.HistoryPage.HandleSearchWithEmail | src/app/booking-history/page.tsx:29-46 | an empty email only raises the alert; otherwise the page shows the guest's bookings newest first, or alerts on a failure and keeps the old list; loading ends |
| BookingHistory.SearchShowsGuestBookings | src/app/booking-history/page.tsx:29-46 | a booking is shown iff it is the history entry of a stored row with the searched email |
| ConsultationService.Present | src/lib/consultationService.ts:6-10 | an empty or missing column becomes undefined, and anything else is kept |
| ConsultationService.OrDefault | src/lib/consultationService.ts:11-12 | an empty or missing status or priority becomes the default, and anything else is kept |
| ConsultationService.ConvertNormalises | src/lib/consultationService.ts:4-15 | conversion keeps every plain field, defaults the status to `pending` and the priority to `normal`, drops an empty memo, and leaves no empty optional field |
| ConsultationService.ConvertStoreRoundTrip | src/lib/consultationService.ts:4-15 | converting the stored form of a normalised record gives the record back |
| ConsultationService.ConvertAll | src/lib/consultationService.ts:80 | every row is converted, in order |
| ConsultationService.ConsultationNumber | src/lib/consultationService.ts:51 | the number is `CONS` followed by decimal digits |
| ConsultationService.ConsultationNumberReadsBack | src/lib/consultationService.ts:51 | the digits after `CONS` read back as the creation time in milliseconds |
| ConsultationService.ConsultationNumberInjective | src/lib/consultationService.ts:51 | consultations created at different milliseconds get different numbers |
| ConsultationService.CreatedRecord | src/lib/consultationService.ts:53-62 | a new consultation is pending, normal priority, unread and without a memo; a missing email gets the placeholder address |
| ConsultationService.RowIndex | src/lib/consultationService.ts:126 | finds a row with the id, and is None exactly when there is none |
| ConsultationService.MarkRead | src/lib/consultationService.ts:97-104 | exactly the rows with the id become read, and nothing else changes |
| ConsultationService.SetStatus | src/lib/consultationService.ts:107-119 | the rows with the id get the status, and the memo only when one is given; other rows are unchanged |
| ConsultationService.ConsultationTable.constructor | src/lib/consultationService.ts:53-54 | the consultation table starts empty, with distinct ids |
| ConsultationService.ConsultationTable.Create | src/lib/consultationService.ts:50-69 | appends the new row and returns its conversion; a store error is rethrown, an id already in the table is refused as a duplicate key, and then nothing is added; ids stay distinct |
| ConsultationService.ConsultationTable.GetAll | src/lib/consultationService.ts:72-81 | returns every consultation, converted, newest first; a store error is rethrown |
| ConsultationService.ConsultationTable.GetUnread | src/lib/consultationService.ts:84-94 | returns exactly the unread consultations, converted, newest first |
| ConsultationService.ConsultationTable.MarkAsRead | src/lib/consultationService.ts:97-104 | marks the consultation read and changes nothing else; a store error is rethrown; ids stay distinct |
| ConsultationService.ConsultationTable.UpdateStatus | src/lib/consultationService.ts:107-119 | sets the status, and the memo when one is given; a store error is rethrown; ids stay distinct |
| ConsultationService.ConsultationTable.GetById | src/lib/consultationService.ts:122-134 | gives nothing iff no row has the id, and otherwise the conversion of the one row with that id |
| ConsultationService.ConsultationTable.Delete | src/lib/consultationService.ts:137-144 | removes exactly the rows with the id, keeping the order of the rest; ids stay distinct |
| ConsultationService.MarkAsReadLeavesUnread | src/lib/consultationService.ts:84-104 | after marking one read, the unread rows are exactly the other rows that were unread |
| ConsultationService.UpdateWithoutMemoKeepsMemo | src/lib/consultationService.ts:107-111 | a status change without a memo keeps the stored memo, and the new status is what the page reads back |
| QuickConsultation.WithFieldOnlyThatField | src/components/ui/QuickConsultationModal.tsx:39-41 | an input change sets that one answer only |
| QuickConsultation.StoreType | src/components/ui/QuickConsultationModal.tsx:56-64 | the stored type is always one of general, booking, technical or complaint |
| QuickConsultation.StoreTypeMapping | src/components/ui/QuickConsultationModal.tsx:32-37 | the four choices map to four different types, and anything else maps to general |
| QuickConsultation.StoreTypeOnto | src/components/ui/QuickConsultationModal.tsx:56-64 | every stored type is reached from some choice of the selector |
| QuickConsultation.Request | src/components/ui/QuickConsultationModal.tsx:66-76 | the request carries the answers, the mapped type and the fixed subject, and no rental details |
| QuickConsultation.QuickConsultationState.constructor | src/components/ui/QuickConsultationModal.tsx:14-30 | the form starts empty and not submitting |
| QuickConsultation.QuickConsultationState.HandleInputChange | src/components/ui/QuickConsultationModal.tsx:39-41 | sets the one field |
| QuickConsultation.QuickConsultationState.HandleSubmit | src/components/ui/QuickConsultationModal.tsx:43-99 | an incomplete form only raises the alert; otherwise the request is filed, and on success the form is cleared and the modal closes, while on failure (a store error or a taken id) the answers stay |
| QuickConsultation.FiledRequest | src/components/ui/QuickConsultationModal.tsx:66-76 | a filed quick request is stored pending, with the mapped type and no rental details |
| QuoteModal.WithFieldOnlyThatField | src/components/ui/QuoteModal.tsx:95-97 | an input change sets that one field and keeps the chosen options |
| QuoteModal.ToggleOption | src/components/ui/QuoteModal.tsx:99-106 | toggling adds the option iff it was absent, and keeps every other option |
| QuoteModal.ToggleTwiceRestores | src/components/ui/QuoteModal.tsx:99-106 | toggling an absent option twice restores the list |
| QuoteModal.ToggleKeepsDistinct | src/components/ui/QuoteModal.tsx:99-106 | toggling never makes an option appear twice |
| QuoteModal.OptionsTextNone | src/components/ui/QuoteModal.tsx:134 | the options line reads 없음 iff no option is chosen |
| QuoteModal.RequestsText | src/components/ui/QuoteModal.tsx:137 | the requests line is never empty, and shows the text when there is one |
| QuoteModal.Body | src/components/ui/QuoteModal.tsx:119-138 | the content starts with the header line |
| QuoteModal.QuoteContentShape | src/components/ui/QuoteModal.tsx:119-138 | after trimming, the content still starts with the header, and is the template itself when the requests line does not end in white space |
| QuoteModal.Request | src/components/ui/QuoteModal.tsx:113-142 | the request is a `booking` consultation with the fixed subject, the contact fields and the rental dates and vehicle |
| QuoteModal.NextStep | src/components/ui/QuoteModal.tsx:174 | moves one step forward, stopping at step 3 |
| QuoteModal.PrevStep | src/components/ui/QuoteModal.tsx:175 | moves one step back, stopping at step 1 |
| QuoteModal.StepsInverse | src/components/ui/QuoteModal.tsx:174-175 | forward then back, or back then forward, returns to the same step within 1 to 3 |
| QuoteModal.ButtonsGuardSteps | src/components/ui/QuoteModal.tsx:482-488 | an enabled Next button moves on only with the current step's fields filled |
| QuoteModal.QuoteModalState.constructor | src/components/ui/QuoteModal.tsx:14-45 | step 1, not submitting, an empty form |
| QuoteModal.QuoteModalState.HandleInputChange | src/components/ui/QuoteModal.tsx:95-97 | sets the field and keeps the step |
| QuoteModal.QuoteModalState.HandleOptionToggle | src/components/ui/QuoteModal.tsx:99-106 | toggles the option and keeps the options distinct |
| QuoteModal.QuoteModalState.ClickNext | src/components/ui/QuoteModal.tsx:482-488 | moves on iff the Next button is enabled |
| QuoteModal.QuoteModalState.ClickPrevious | src/components/ui/QuoteModal.tsx:472 | moves one step back |
| QuoteModal.QuoteModalState.HandleSubmit | src/components/ui/QuoteModal.tsx:108-172 | files the request; on success the form resets to step 1 and the modal closes, and on failure (a store error or a taken id) everything stays; the submitting flag ends false |
| QuoteModal.FiledQuote | src/components/ui/QuoteModal.tsx:113-142 | a filed quote is a pending `booking` consultation whose content starts with the header |
| VehicleCarousel.NextIndex | src/components/vehicles/VehicleCarousel.tsx:37-41 | the next index wraps from the last vehicle to the first |
| VehicleCarousel.PrevIndex | src/components/vehicles/VehicleCarousel.tsx:43-47 | the previous index wraps from the first vehicle to the last |
| VehicleCarousel.NextPrevInverse | src/components/vehicles/VehicleCarousel.tsx:37-47 | next and previous undo each other |
| VehicleCarousel.AdvanceIsOffset | src/components/vehicles/VehicleCarousel.tsx:26-35 | k autoplay steps land k places further on, wrapping once |
| VehicleCarousel.FullRoundReturns | src/components/vehicles/VehicleCarousel.tsx:26-35 | a full round of autoplay shows every vehicle once and comes back to the start |
| VehicleCarousel.VehicleImageUrl | src/components/vehicles/VehicleCarousel.tsx:74-80 | the image is the first image's url when there is a non-empty image list, and nothing otherwise |
| VehicleCarousel.CarouselState.constructor | src/components/vehicles/VehicleCarousel.tsx:22-23 | autoplay on, sliding right |
| VehicleCarousel.CarouselState.NextVehicle | src/components/vehicles/VehicleCarousel.tsx:37-41 | stops autoplay, slides right, one vehicle forward |
| VehicleCarousel.CarouselState.PrevVehicle | src/components/vehicles/VehicleCarousel.tsx:43-47 | stops autoplay, slides left, one vehicle back |
| VehicleCarousel.CarouselState.GoToVehicle | src/components/vehicles/VehicleCarousel.tsx:49-54 | stops autoplay and shows the chosen vehicle, sliding right iff it lies after the current one |
| VehicleCarousel.CarouselState.AutoplayTick | src/components/vehicles/VehicleCarousel.tsx:26-35 | with autoplay on and more than one vehicle, one step forward to the right; otherwise nothing |
| VehicleCarousel.CarouselState.ToggleAutoPlay | src/components/vehicles/VehicleCarousel.tsx:348 | flips autoplay only |
| VehicleCarousel.CarouselState.ClickBooking | src/components/vehicles/VehicleCarousel.tsx:282-283 | the shown vehicle is handed on iff it is available |
| Theme.CategoryRulesDisjoint | src/components/layout/VehicleSection.tsx:21-29 | no vehicle is selected by two of the premium, economy and electric categories |
| VehiclesPage.Names | src/app/vehicles/page.tsx:16 | the category names, in order |
| VehiclesPage.Categories | src/app/vehicles/page.tsx:16 | the buttons are 전체 followed by the theme's categories |
| VehiclesPage.FilteredVehicles | src/app/vehicles/page.tsx:18-29 | the filter keeps the catalogue order |
| VehiclesPage.FilteredMembership | src/app/vehicles/page.tsx:18-29 | a vehicle is listed iff it matches both the category and the search term |
| VehiclesPage.EmptySearchMatches | src/app/vehicles/page.tsx:25-26 | an empty search matches every vehicle |
| VehiclesPage.AllWithoutSearch | src/app/vehicles/page.tsx:19-26 | 전체 with no search lists the whole catalogue |
| VehiclesPage.UnknownCategoryListsNothing | src/app/vehicles/page.tsx:19-23 | a category without a rule lists nothing |
| VehiclesPage.SearchIgnoresCase | src/app/vehicles/page.tsx:25-26 | the search ignores letter case |
| VehicleSection.FirstActive | src/components/layout/VehicleSection.tsx:14 | finds the first active category |
| VehicleSection.InitialCategory | src/components/layout/VehicleSection.tsx:13-15 | the initial category is the first active one with a name, or else the first; none without categories |
| VehicleSection.SectionVehicles | src/components/layout/VehicleSection.tsx:17-31 | the section's list keeps the catalogue order |
| VehicleSection.OtherCategoryShowsAll | src/components/layout/VehicleSection.tsx:30 | a category without a rule shows every vehicle |
| VehicleSection.SameRulesAsVehiclesPage | src/components/layout/VehicleSection.tsx:17-31 | for the four named categories the section shows what the vehicles page shows with no search |
| IconMap.WithDefaults | src/lib/iconMap.tsx:69-73 | the class name defaults to empty and the size to 24 |
| IconMap.DynamicIcon | src/lib/iconMap.tsx:69-83 | corrected: the icon mapped to the lower-cased name, or the alert icon when there is none |
| IconMap.AvailableIconNames | src/lib/iconMap.tsx:91-93 | there are 27 icon names |
| IconMap.KeysAreNames | src/lib/iconMap.tsx:33-61 | a key has an icon iff it is one of the 27 names |
| IconMap.HasIconIffMapped | src/lib/iconMap.tsx:86-88 | `hasIcon` holds iff the lower-cased name is mapped; otherwise the alert icon is shown; the lookup ignores case |
| IconMap.AvailableNamesHaveIcons | src/lib/iconMap.tsx:86-93 | every listed name has an icon |
| IconMap.IndexAsWritten | src/lib/iconMap.tsx:74 | as written: the index finds an icon iff the key is one of the 27 names |
| IconMap.DynamicIconAsWritten | src/lib/iconMap.tsx:74-82 | as written: an inherited object member passes the truthiness check and is rendered as if it were an icon |
| IconMap.InheritedKeyBypassesFallback | src/lib/iconMap.tsx:74-80 | `constructor` has no icon, yet gets no alert icon |
| IconMap.AsWrittenAgreesElsewhere | src/lib/iconMap.tsx:74-82 | for every other name the code as written renders the corrected icon |
| SupportService.StoredPassword | src/lib/supportService.ts:56-60 | an empty or missing password is stored as null; any other is stored base64-encoded, and a non-Latin-1 password makes creation fail |
| SupportService.PostIndex | src/lib/supportService.ts:86 | finds a post with the id, and is None exactly when there is none |
| SupportService.SetPostStatus | src/lib/supportService.ts:134-147 | the posts with the id get the status, and the rest are unchanged |
| SupportService.AddView | src/lib/supportService.ts:82 | the posts with the id get one more view, and the rest are unchanged |
| SupportService.PostTable.constructor | src/lib/supportService.ts:62-63 | the post table starts empty |
| SupportService.PostTable.GetSupportPosts | src/lib/supportService.ts:30-50 | returns the approved posts of the type, newest first; an error gives the empty list |
| SupportService.PostTable.CreateSupportPost | src/lib/supportService.ts:53-76 | succeeds iff the store answers and the password can be encoded, and then appends exactly the new post |
| SupportService.PostTable.GetSupportPostById | src/lib/supportService.ts:79-97 | the view count goes up, and only an approved post is returned |
| SupportService.PostTable.VerifyPostPassword | src/lib/supportService.ts:100-115 | true iff the post exists and its stored password equals the attempt encoded |
| SupportService.PostTable.GetAllSupportPosts | src/lib/supportService.ts:118-131 | returns every post, newest first; an error gives the empty list |
| SupportService.PostTable.UpdatePostStatus | src/lib/supportService.ts:134-147 | on success the post gets the status, and success is reported iff the store answered |
| SupportService.PostTable.DeleteSupportPost | src/lib/supportService.ts:150-163 | on success exactly the posts with the id are removed |
| SupportService.FilterKeepsDistinct | src/lib/supportService.ts:150-163 | removing posts keeps ids distinct |
| SupportService.PublicListing | src/lib/supportService.ts:30-50 | a post is listed iff it is approved and of the requested type |
| SupportService.NewPostApproval | src/lib/supportService.ts:53-76 | a new post is approved iff an admin wrote it, so a guest's post is not listed |
| SupportService.VerifyCreationPassword | src/lib/supportService.ts:56-60 | a post created with a password verifies exactly that password |
| SupportService.NoPasswordNeverVerifies | src/lib/supportService.ts:56-60 | a post created without a password never verifies |
| SupportService.DeleteKeepsOthers | src/lib/supportService.ts:150-163 | deletion keeps every other post, in order |
| Base64.Btoa | src/lib/supportService.ts:59 | `btoa` succeeds iff every code unit is below 256 |
| Base64.DecodeEncode | src/lib/supportService.ts:59 | decoding the base64 text gives the bytes back |
| Base64.BtoaInjective | src/lib/supportService.ts:109 | different passwords are stored differently |
| Base64.ShortTestVectors | src/lib/supportService.ts:59 | the section 10 test vectors of RFC 4648 for `""`, `f` and `fo` |
| Base64.FooTestVector | src/lib/supportService.ts:59 | the section 10 test vector of RFC 4648 for `foo` |
| Base64.FoobarTestVector | src/lib/supportService.ts:59 | the section 10 test vector of RFC 4648 for `foobar` |
| PostModal.WithFieldOnlyThatField | src/components/support/PostModal.tsx:63-69 | an input change sets that one field |
| PostModal.SubmitError | src/components/support/PostModal.tsx:27-35 | the form is accepted iff title, content and author are filled, and a community post also has a password |
| PostModal.MissingFieldsReportedFirst | src/components/support/PostModal.tsx:27-30 | a missing title, content or author is reported before a missing password |
| PostModal.NoticeNeedsNoPassword | src/components/support/PostModal.tsx:32-35 | a notice never asks for a password |
| PostModal.Payload | src/components/support/PostModal.tsx:41-48 | the post carries the form's fields and type, a password only for a community post, and is never an admin post |
| PostModal.PostModalState.constructor | src/components/support/PostModal.tsx:15-22 | an empty form, no error, not loading |
| PostModal.PostModalState.HandleInputChange | src/components/support/PostModal.tsx:63-69 | sets the field only |
| PostModal.PostModalState.HandleSubmit | src/components/support/PostModal.tsx:37-60 | a rejected form shows its error and files nothing; otherwise success is the store's answer, adding exactly the new post, and failure shows the error text |
| PostModal.FormPostsArePending | src/components/support/PostModal.tsx:41-48 | every post written through the form waits for moderation |
| PostModal.CommunityPasswordVerifies | src/components/support/PostModal.tsx:41-48 | a community post written through the form verifies exactly the password typed |
| PostDetail.FormatContent | src/components/support/PostDetailModal.tsx:24-31 | one span per line, each followed by a break except the last |
| PostDetail.BreaksAllButLast | src/components/support/PostDetailModal.tsx:24-31 | such spans have one break fewer than they have lines |
| PostDetail.FormatContentFaithful | src/components/support/PostDetailModal.tsx:24-31 | one span per newline plus one, one break per newline, no newline inside a span, and the spans joined by newlines give the content back |
| PostDetail.TypeHeader | src/components/support/PostDetailModal.tsx:46-52 | a notice shows the bell and 공지사항, and a community post shows users and 커뮤니티 |
| PostDetail.HeaderIcons | src/components/support/PostDetailModal.tsx:46-49 | "bell" is not an icon-map key, so a notice's header renders the alert fallback; a community post's renders the users icon |
| PostDetail.NewPostFooter | src/components/support/PostDetailModal.tsx:105-111 | a new post shows no modification time, and the report action iff a guest wrote it |
| PostDetail.StatusChangeNotModified | src/components/support/PostDetailModal.tsx:105 | a moderation status change alone does not make a post look modified |
| SupportPage.StripTags | src/app/support/page.tsx:165 | removing tags never lengthens the content |
| SupportPage.StripTagsSubsequence | src/app/support/page.tsx:165 | what remains is the content with characters removed, in order |
| SupportPage.StripTagsTagFree | src/app/support/page.tsx:165 | no `<` is followed later by a `>` in the result |
| SupportPage.StripTagsIdentity | src/app/support/page.tsx:165 | tag-free content is left unchanged |
| SupportPage.StripTagsIdempotent | src/app/support/page.tsx:165 | removing tags twice is removing them once |
| SupportPage.NoAngleUntouched | src/app/support/page.tsx:165 | content without `<` is unchanged |
| SupportPage.Preview | src/app/support/page.tsx:165 | the preview is the first 100 characters of the tag-free content |
| SupportPage.PreviewFromContent | src/app/support/page.tsx:165 | the preview has at most 100 characters, all from the content, in order, and no tag |
| SupportPage.PlainContentPreview | src/app/support/page.tsx:165 | for plain content the preview is its first 100 characters |
| SupportPage.PreviewLine | src/app/support/page.tsx:165 | the shown line ends in `...` and has at most 103 characters |
| SupportPage.SupportPageState.constructor | src/app/support/page.tsx:13-21 | the notice tab, no posts, no modal and no selection |
| SupportPage.SupportPageState.LoadPosts | src/app/support/page.tsx:23-33 | shows the approved posts of the active tab, newest first; an error shows none |
| SupportPage.SupportPageState.SelectTab | src/app/support/page.tsx:19-21 | sets the tab; a click on the active tab keeps the list, because the effect on the tab does not run again; a new tab loads its approved posts newest first, or an empty list when the store fails |
| SupportPage.SupportPageState.ClickWriteButton | src/app/support/page.tsx:106 | the write form opens only on the community tab |
| SupportPage.SupportPageState.PostCreated | src/app/support/page.tsx:189-192 | closes the write form and reloads the tab: its approved posts newest first, or an empty list when the store fails |
| SupportPage.SupportPageState.SelectPost | src/app/support/page.tsx:35-37 | opens the chosen post and changes nothing else |
| SupportPage.NewGuestPostNotListed | src/app/support/page.tsx:189-192 | a guest's new post does not appear after the reload, since it is not yet approved |
| AdminSupport.FilteredPosts | src/app/admin/support/page.tsx:79-82 | `all` shows every post, and any filter keeps the order |
| AdminSupport.FilteredPostsMembership | src/app/admin/support/page.tsx:79-82 | with a status filter, a post is shown iff it has that status |
| AdminSupport.StatusCount | src/app/admin/support/page.tsx:131-135 | a count never exceeds the number of posts |
| AdminSupport.CountsAddUp | src/app/admin/support/page.tsx:131-135 | pending, approved and rejected counts add up to all posts |
| AdminSupport.StatusText | src/app/admin/support/page.tsx:93-100 | each of the three statuses gets its Korean label, and anything else shows itself |
| AdminSupport.StatusTextsDiffer | src/app/admin/support/page.tsx:93-100 | the three labels differ |
| AdminSupport.ModerationIsFinal | src/app/admin/support/page.tsx:236 | after approval or rejection the moderation buttons are gone |
| AdminSupport.AdminSupportPage.constructor | src/app/admin/support/page.tsx:15-23 | no posts, filter `all`, no action in progress |
| AdminSupport.AdminSupportPage.LoadPosts | src/app/admin/support/page.tsx:25-35 | the page holds every post, newest first, or none after an error |
| AdminSupport.AdminSupportPage.HandleStatusChange | src/app/admin/support/page.tsx:37-57 | the store and the page's copy change together and only on success; a failure raises the alert |
| AdminSupport.AdminSupportPage.HandleDelete | src/app/admin/support/page.tsx:59-77 | nothing happens unless confirmed; then the store and the page's copy lose the post together, and only on success |
| AdminSupport.AdminSupportPage.SetFilter | src/app/admin/support/page.tsx:79 | sets the filter only |
| AdminSupport.StatusChangeKeepsShape | src/app/admin/support/page.tsx:44-50 | a status change keeps the number of posts, their order and their ids, and changes only statuses |
| AdminSupport.ApproveMovesOne | src/app/admin/support/page.tsx:131-135 | approving a pending post moves one from the pending count to the approved count |
| Dates.ParseFullDateInverse | src/components/booking/BookingCalendar.tsx:61 | a date written as `YYYY-MM-DD` reads back as the same date |
| Dates.ParseFullDateExact | src/components/booking/BookingCalendar.tsx:57-58 | a string that reads as a date is exactly that date's `YYYY-MM-DD` text |
| Dates.FullDateOrder | src/components/booking/BookingModal.tsx:127 | comparing two date strings with `<` orders them as days |
| Dates.DayNumberOrder | src/components/booking/BookingCalendar.tsx:101 | day numbers order dates as the calendar does, and name each date once |
| Dates.ThreeMonthsAhead | src/components/booking/BookingCalendar.tsx:46-47 | three months ahead is 89 to 92 days later |
| Text.TrimEmptyIffBlank | src/components/booking/BookingModal.tsx:105 | a trimmed field is empty iff it is all white space |
| Text.PaddedShape | src/lib/bookingService.ts:29 | `padStart(4, '0')` gives four digits that read as the number |
| Text.PaddedInjective | src/lib/bookingService.ts:29 | different numbers pad to different texts |
| Text.DecimalValue | src/lib/consultationService.ts:51 | `Date.now()` written in decimal reads back as itself |
| Text.JoinSplit | src/components/support/PostDetailModal.tsx:26-29 | joining the split lines with the separator gives the text back |
| Text.SplitCount | src/components/support/PostDetailModal.tsx:26-29 | splitting gives one line more than there are separators |
| Text.LexPadded | src/components/booking/BookingModal.tsx:127 | equal-width padded numbers compare as strings as they do as numbers |

## Left out

- Time zones: `toISOString()` turns the local clock into a UTC date. The model takes today's date as a parameter and does not shift it.
- Floating point: the day count divides milliseconds and takes `Math.ceil`. The model uses exact day numbers. The discount and the final amount use exact rationals, with `Math.round` rounding halves up.
- `Math.random()` is a real `r` with 0 ≤ r < 1, given as a parameter. The clock (`Date.now()`, `new Date()`) and the ids the store generates are parameters too.
- Store ordering by `created_at` sorts newest first. The order of rows with equal timestamps is not fixed, so results are stated up to that order: the same multiset, sorted newest first.
- The ordering of the category, location and brand lists by `name` uses the database's collation. The model keeps the table order.
- The category, location and search filters of `getVehicles` (src/lib/vehicleService.ts:70-82) compare columns of the joined category, location and brand tables, which the model does not hold. Only the status filter is modelled.
- The `vehicles (...)` joins that `getCustomerBookings` and `getBookingById` attach are not modelled. Only the reservation columns are.
- Store errors other than "not found" are modelled as one outcome, `storeOk` or `storeError`. Thrown exceptions are `Err` results. `console.error` and `console.warn` are not modelled.
- The realtime subscription of the consultation service (src/lib/consultationService.ts:147-155) is not modelled. It only forwards store events to a callback.
- ConsultationService.Convert: consultation timestamps are stored as integers. The `|| new Date()` fallback for a missing timestamp is not modelled, because the columns are not nullable.
- SupportService.PostTable.GetSupportPostById: the `increment_post_views` RPC is modelled as adding one view when `viewOk` holds. Its failure is ignored, as in the source.
- Alerts, `confirm` dialogs, timers, the clipboard, `Blob` downloads and navigation are left out. An alert is the returned message, and a confirmation is a parameter.
- The autoplay `setInterval` of the carousel is the `AutoplayTick` method, one call per tick. The timer itself and its clean-up are not modelled.
- The calendar's initial selection from `initialStartDate`/`initialEndDate` (src/components/booking/BookingCalendar.tsx:29-33) is not modelled.
- Intermediate loading states are left out. A method states the flag's value when it returns, not while the store is awaited.
- The `catch` branch of the post form's submit (src/components/support/PostModal.tsx:55-57) cannot be reached, because the support service catches every error itself. Failure shows up as `success == false`.
- `toLowerCase` is modelled for ASCII letters only. The vehicle search and the icon lookup lower-case no other character.
- The search-type selector on the vehicles page does not take part in filtering, so it is not modelled.
- IconMap.DynamicIconAsWritten: only prototype keys that are all lower-case (`constructor`, `__proto__`, …) are reachable, because the name is lower-cased first. Rendering an inherited member is modelled as the `NotAnIcon` outcome, not as what React does with it.
- BookingHistory.StatusBadge: a status named after an Object.prototype member gives the `UndefinedBadge` outcome, not what React renders for an undefined label and class. The `Booking` type (src/lib/bookingService.ts:16) allows only the five known statuses, so this case needs a store row outside that type.
- ConsultationService.ConsultationTable.Create: the store's refusal of a taken id is modelled as one fixed message, `DuplicateKey`. The store's error object is not modelled.
- BookingCalendar.SelectedDays: react-calendar is not part of this model. Its range value is taken to run from midnight of the first selected day to the last millisecond of the last selected day.
- The static texts, styles and layout of the pages are left out, as are the images and the theme's contact and review sections.
- Text is a sequence of UTF-16 code units from the Basic Multilingual Plane. There is no normalisation.

## Findings

| source | as written | input that shows it | evidently intended | confidence | as-written member | corrected member |
|---|---|---|---|---|---|---|
| src/lib/bookingService.ts:96 | The availability check joins `start_date <= end` and `end_date >= start` with OR. Any well-formed reservation of the vehicle satisfies one of the two. The same OR appears in src/lib/vehicleService.ts:154. | A confirmed reservation from June 10 to 15 and a request for July 1 to 3 of the same vehicle: the check reports the vehicle as unavailable. | A reservation blocks the request only if the two ranges overlap (AND), as `getVehicleBookedDates` queries it. | not executed | BookingService.AvailabilityCounterexample | BookingService.ReservationTable.CheckVehicleAvailabilityIntended |
| src/components/booking/BookingModal.tsx:454-459 | The discount and the final amount are each rounded on their own: `Math.round(total * 0.05)` and `Math.round(total * 0.95)`. | A total of 10: the discount shown is 1 and the final amount is 10, which add up to 11. | The final amount is the total minus the discount shown. | not executed | BookingModal.DiscountMismatchExample | BookingModal.FinalAmountCorrected |
| src/lib/iconMap.tsx:74-80 | `iconMap[name.toLowerCase()]` also finds members inherited from `Object.prototype`. These are truthy, so the alert-icon fallback is skipped. | The name `constructor`: `hasIcon` is false, yet the component renders the `Object` function instead of the alert icon. | Any name without its own entry gets the alert icon, as `hasIcon` checks with `hasOwnProperty`. | not executed | IconMap.InheritedKeyBypassesFallback | IconMap.DynamicIcon |
| src/components/booking/BookingCalendar.tsx:287 | The summary computes `Math.ceil((end - start) / day) + 1` on the calendar's range value. In range mode that value ends at the last millisecond of the last day, so the difference is just under one day more than the days between the two dates. | A selection of June 10 to 12: the summary shows 4 days, and the booking form prices 3. A one-day selection shows 2. | The summary shows the number of selected days, the same count the form charges for. | not executed | BookingCalendar.SelectedDaysOvercounts | BookingCalendar.SelectedDaysCorrected |
