# Salon booking front end — verified model

This project models the rules at the core of a salon booking web front end,
written in TypeScript with React. The front end has these parts:

- a day calendar that places appointments on a 56-row grid of quarter hours
  from 07:00 to 21:00;
- a booking form with 15-minute start-time options and an end time that
  follows the start;
- a calendar page that turns server bookings into appointments, filters them
  by day and builds the month grid of the mini calendar;
- a customer search box and a customer table with inline edit and
  delete confirmation;
- an appointment details modal that closes on Escape or on a click outside
  it;
- two small shared stores, a once-only store initialiser, the salon query
  keys and list URL, token expiry, and a view drop-down.

Every source file of that core has one Dafny module. Shared modules:

- `Js` holds the JavaScript semantics the code relies on: `split`,
  `Number`, `parseInt`, `padStart`, `String(n)`, `includes`, `filter`,
  `join`, ASCII `toLowerCase` and form URL encoding.
- `Clock` holds `"HH:MM"` strings.
- `Dates` is a proleptic Gregorian calendar that stands in for the date
  library.
- `Types` holds the user, customer and alert records.

How the code is modelled:

- Code that only computes becomes functions, with lemmas about them.
- The source's two loops become methods with loop invariants, proved against
  a specification function: the time-slot list of the form and the day list
  of the mini calendar.
- The salon list URL builder becomes a method of sequential appends.
- Component and store state that handlers update becomes a class with those
  fields. Most classes expose their fields as one `Snapshot()` value, and
  each handler is a method whose postcondition ties the new snapshot to a
  pure transition function of the old one; the lemmas are stated about those
  transition functions. Two classes differ. `UserStore.Store` has the single
  field `user`, and its methods state the new `user` directly through the
  functions `Assign` and `Cleared`. `CalendarView.Calendar` keeps the
  selected date valid under `Valid()`, and each handler states its new fields
  one by one.

The model keeps these behaviours of the code as written:

- The day-grid span is `endRow - startRow` with no clamping. It can be 0
  (09:00–09:10) or negative (end before start).
- The calendar page ignores any end time from the server. It always uses the
  start plus one hour, modulo 24 hours.
- The booking form never checks that the end time is after the start time.
- The appointment store has no `selectedColumnId`, so the form's column
  always starts at 1.
- The mini calendar's weeks start on Sunday, the date library's default. The
  day-name header reads Monday to Sunday.
- The customer table tests the edited or deleted customer's id for
  truthiness. A customer with id 0 can therefore never be saved or deleted.
- The hook the details modal imports for deleting does not exist among the
  hooks. The delete's outcome is therefore a parameter, success or failure.

## Model

| member | source | states |
|---|---|---|
| DayViewWithSlots.SlotFromParts | src/components/calendar/DayViewWithSlots.tsx:83-96 | no slot exactly when the start hour is before 7 or from 21 (NaN passes both tests); otherwise row and span come from the hour/minute row formula and the colour is palette[index mod 8] |
| DayViewWithSlots.OutsideBusinessHours | src/components/calendar/DayViewWithSlots.tsx:83 | an hour is filtered out exactly when it is a number outside 7..20; NaN is never filtered out |
| DayViewWithSlots.Row | src/components/calendar/DayViewWithSlots.tsx:90-91 | a row is a number exactly when hour and minute are; it is the quarter-hour index since midnight, counted from the 07:00 quarter as row 1 |
| DayViewWithSlots.Span | src/components/calendar/DayViewWithSlots.tsx:92 | a span is a number exactly when both rows are, and the start row plus the span is the end row |
| DayViewWithSlots.SlotOf | src/components/calendar/DayViewWithSlots.tsx:75-96 | an appointment yields no slot exactly when its start hour read from "HH:MM" is outside business hours; the slot keeps the input position and its colour |
| DayViewWithSlots.Mapped | src/components/calendar/DayViewWithSlots.tsx:75 | the map yields one entry per appointment, the i-th computed from the i-th appointment with index i |
| DayViewWithSlots.Layout | src/components/calendar/DayViewWithSlots.tsx:75-119 | every rendered slot is the slot of the appointment at its index, slots are in input order, and an index is rendered exactly when its appointment yields a slot |
| DayViewWithSlots.LayoutCorrespondence | src/components/calendar/DayViewWithSlots.tsx:75-86 | after null entries are removed, each remaining slot corresponds to its source appointment |
| DayViewWithSlots.LayoutComplete | src/components/calendar/DayViewWithSlots.tsx:75-86 | no appointment that yields a slot is lost when nulls are removed |
| DayViewWithSlots.ShownIffNotDropped | src/components/calendar/DayViewWithSlots.tsx:83-86 | an appointment is shown exactly when it is not filtered out for business hours |
| DayViewWithSlots.NothingDropped | src/components/calendar/DayViewWithSlots.tsx:75-96 | when no appointment is dropped, the j-th slot is the j-th appointment's |
| DayViewWithSlots.SlotDateTime | src/components/calendar/DayViewWithSlots.tsx:112 | the `dateTime` is the appointment's date, or the selected date when that is absent or empty, then "T" and the start time |
| DayViewWithSlots.SlotDate | src/components/calendar/DayViewWithSlots.tsx:112 | the date of the `dateTime` attribute: an absent or empty appointment date falls back to the selected date (see SlotDateTime) |
| DayViewWithSlots.GridRowReadsBack | src/components/calendar/DayViewWithSlots.tsx:101 | the `gridRow` text splits at spaces into the start row, "/", "span" and the span, and both numbers parse back |
| DayViewWithSlots.GridRowText | src/components/calendar/DayViewWithSlots.tsx:101 | the `gridRow` style text "start / span n" (its reading back is GridRowReadsBack) |
| DayViewWithSlots.Hours | src/components/calendar/DayViewWithSlots.tsx:24 | the hour rows are the 14 hours 7..20 |
| DayViewWithSlots.HourLabels | src/components/calendar/DayViewWithSlots.tsx:29-33 | hours below 12 read "h AM", 12 reads "12 PM", later hours read "(h-12) PM" |
| DayViewWithSlots.FormatTime | src/components/calendar/DayViewWithSlots.tsx:29-33 | for an hour of the day the label ends in " AM" before noon and " PM" from noon on |
| DayViewWithSlots.FormatTimeReads | src/components/calendar/DayViewWithSlots.tsx:29-33 | the number before the suffix reads back as the hour on a twelve-hour clock, 12 for midnight and noon |
| DayViewWithSlots.HourLabelsDistinct | src/components/calendar/DayViewWithSlots.tsx:24-33 | the 14 hour labels are pairwise different |
| DayViewWithSlots.StartRowInGrid | src/components/calendar/DayViewWithSlots.tsx:73-90 | for start hours 7..20 and minutes 0..59 the start row lies in 1..56 |
| DayViewWithSlots.RowIsQuarter | src/components/calendar/DayViewWithSlots.tsx:90-91 | the row formula is the index of the quarter hour since midnight, minus 27 |
| DayViewWithSlots.StartRowMonotone | src/components/calendar/DayViewWithSlots.tsx:90 | a later start time never gets an earlier start row |
| DayViewWithSlots.QuarterMonotone | src/components/calendar/DayViewWithSlots.tsx:90 | the quarter-hour index never decreases as the minutes since midnight grow |
| DayViewWithSlots.SpanIsQuarterDifference | src/components/calendar/DayViewWithSlots.tsx:91-92 | the span is the number of quarter-hour boundaries between start and end |
| DayViewWithSlots.SpanNonNegative | src/components/calendar/DayViewWithSlots.tsx:91-92 | an end no earlier than the start gives a span of at least 0 |
| DayViewWithSlots.SpanZeroInSameQuarter | src/components/calendar/DayViewWithSlots.tsx:91-92 | start and end in the same quarter hour give span 0 |
| DayViewWithSlots.SpanNegative | src/components/calendar/DayViewWithSlots.tsx:91-92 | an end in an earlier quarter hour than the start gives a negative span; nothing clamps it |
| DayViewWithSlots.SlotOfReads | src/components/calendar/DayViewWithSlots.tsx:76-77 | both times are read by splitting at ':' and converting each part with `Number` |
| DayViewWithSlots.PlacedWhenInBusinessHours | src/components/calendar/DayViewWithSlots.tsx:83-90 | a start read as 7..20 hours places the appointment on rows 1..56 |
| DayViewWithSlots.DroppedOutsideBusinessHours | src/components/calendar/DayViewWithSlots.tsx:83 | a start hour before 7 or from 21 drops the appointment |
| DayViewWithSlots.UnreadableStartIsKept | src/components/calendar/DayViewWithSlots.tsx:83 | a start hour that reads as NaN is not dropped |
| DayViewWithSlots.SlotOfReadTimes | src/components/calendar/DayViewWithSlots.tsx:76-92 | a placed appointment's row and span are the quarter-hour formulas of the times it reads |
| DayViewWithSlots.NineToTen | src/components/calendar/DayViewWithSlots.tsx:90-92 | 09:00–10:00 starts on row 9 and spans 4 rows |
| DayViewWithSlots.ShortAppointmentSpansZero | src/components/calendar/DayViewWithSlots.tsx:90-92 | 09:00–09:10 starts on row 9 and spans 0 rows |
| DayViewWithSlots.ColourFollowsInputPosition | src/components/calendar/DayViewWithSlots.tsx:36-96 | the j-th shown slot's colour is palette[index mod 8] for its input index, which is at least j, so dropped appointments still use up colours |
| AppointmentSlot.GetColorScheme | src/components/calendar/AppointmentSlot.tsx:64-66 | the scheme is the palette entry at index mod 8 |
| AppointmentSlot.Scheme | src/components/calendar/AppointmentSlot.tsx:53-62 | the five classes of a palette entry, all in the shades 50, 100, 700, 500 and 700 of its colour (distinctness in BackgroundsDistinct) |
| AppointmentSlot.ColorSchemePeriodic | src/components/calendar/AppointmentSlot.tsx:65 | index i+8 gets the same scheme as i |
| AppointmentSlot.BackgroundsDistinct | src/components/calendar/AppointmentSlot.tsx:53-62 | different palette colours have different background classes |
| AppointmentSlot.PaletteDistinct | src/components/calendar/AppointmentSlot.tsx:53-62 | the eight palette entries are pairwise different |
| AppointmentSlot.AdjacentSchemesDiffer | src/components/calendar/AppointmentSlot.tsx:53-66 | neighbouring indices never share a background |
| AppointmentSlot.RenderSlot | src/components/calendar/AppointmentSlot.tsx:21-45 | gridColumn defaults to 1; row, title and time text pass through; `dateTime` is the date (or "undefined" when absent), "T" and the start time; the link classes carry the scheme's background and end with its hover class |
| AppointmentSlot.SlotDateTimeRoundTrip | src/components/calendar/AppointmentSlot.tsx:43 | the `dateTime` splits at 'T' into exactly the date and the start time |
| AppointmentForm.TimeSlots | src/components/calendar/AppointmentForm.tsx:124-132 | the nested loops produce 56 entries, the k-th being the k-th quarter hour from 07:00 |
| AppointmentForm.SlotPrefixAt | src/components/calendar/AppointmentForm.tsx:124-132 | every entry of a slot prefix is the slot time of its position |
| AppointmentForm.AppendSlot | src/components/calendar/AppointmentForm.tsx:130 | one push of the loop keeps the list a prefix of the slot times |
| AppointmentForm.SlotPosition | src/components/calendar/AppointmentForm.tsx:125-126 | the k-th loop iteration has hour 7 + k/4 and minute (k mod 4)*15 |
| AppointmentForm.SlotArith | src/components/calendar/AppointmentForm.tsx:125-126 | each slot's hour is 7..20, its minute is 0, 15, 30 or 45, and it lies 15k minutes after 07:00 |
| AppointmentForm.SlotTimeParts | src/components/calendar/AppointmentForm.tsx:127-129 | each slot string reads back as its hour and minute |
| AppointmentForm.SlotTimeReads | src/components/calendar/AppointmentForm.tsx:124-132 | a slot string reads as an hour 7..20 and a quarter-hour minute |
| AppointmentForm.SlotTimeShape | src/components/calendar/AppointmentForm.tsx:127-129 | each slot is zero-padded "HH:MM" |
| AppointmentForm.SlotTimesIncrease | src/components/calendar/AppointmentForm.tsx:124-132 | the slots strictly increase in time and are pairwise different |
| AppointmentForm.EndAfterParts | src/components/calendar/AppointmentForm.tsx:329-346 | the end is set only when hour+1 < 21; it is kept exactly when hour+1 < 21 fails, NaN included |
| AppointmentForm.EndAfterStart | src/components/calendar/AppointmentForm.tsx:331-338 | a start with no ':' never sets an end; it throws exactly when its hour plus one passes the test `< 21` |
| AppointmentForm.SlotShift | src/components/calendar/AppointmentForm.tsx:125-126 | four slots later is one hour later at the same minute |
| AppointmentForm.WrittenStartParts | src/components/calendar/AppointmentForm.tsx:329-346 | a written "HH:MM" start is read as its hour and minute |
| AppointmentForm.EndOneHourLater | src/components/calendar/AppointmentForm.tsx:335-341 | for hour+1 < 21 the end becomes "(HH+1):MM" |
| AppointmentForm.EndAfterWrittenStart | src/components/calendar/AppointmentForm.tsx:329-346 | choosing "HH:MM" with HH+1 < 21 sets the end to "(HH+1):MM" |
| AppointmentForm.EndKeptAfterWrittenStart | src/components/calendar/AppointmentForm.tsx:329-346 | choosing a start from 20:00 on leaves the end unchanged |
| AppointmentForm.StartWithoutColonThrows | src/components/calendar/AppointmentForm.tsx:331-338 | a start with no ':' whose hour passes the test reaches `undefined.padStart` and throws |
| AppointmentForm.EndFollowsStartOption | src/components/calendar/AppointmentForm.tsx:329-346 | for the first 52 options the end becomes the option four places later |
| AppointmentForm.EndKeptForLastHour | src/components/calendar/AppointmentForm.tsx:329-346 | for the last four options the end is kept |
| AppointmentForm.InitialColumn | src/components/calendar/AppointmentForm.tsx:29 | the column starts at `selectedColumnId` when that is truthy, else 1 |
| AppointmentForm.Initial | src/components/calendar/AppointmentForm.tsx:19-33 | the useState initialisers: no customer, sub-form hidden, today, 09:00 to 10:00, empty texts, column `selectedColumnId` or else 1, alert hidden (see InitialColumnIsOne and ResetIsInitial) |
| AppointmentForm.InitialColumnIsOne | src/components/calendar/AppointmentForm.tsx:16-29 | with the store as written the column always starts at 1 |
| AppointmentForm.Reset | src/components/calendar/AppointmentForm.tsx:48-62 | closing restores no customer, hidden sub-form, today, 09:00–10:00, empty texts, column 1, hidden alert |
| AppointmentForm.ResetForgets | src/components/calendar/AppointmentForm.tsx:48-62 | the reset state does not depend on the state before it, and resetting twice equals resetting once |
| AppointmentForm.ResetIsInitial | src/components/calendar/AppointmentForm.tsx:19-62 | the reset state is the state the form is created with |
| AppointmentForm.ShowAlert | src/components/calendar/AppointmentForm.tsx:65-67 | the alert is shown with the given kind and message and nothing else changes |
| AppointmentForm.ChangeStart | src/components/calendar/AppointmentForm.tsx:329-346 | the start becomes the chosen value; the end follows the end-time rule or stays; nothing else changes |
| AppointmentForm.ChangeColumn | src/components/calendar/AppointmentForm.tsx:281-284 | the column becomes `Number` of the chosen value, nothing else changes |
| AppointmentForm.ColumnOptionChosen | src/components/calendar/AppointmentForm.tsx:281-287 | choosing option c of 1..5 sets the column to c |
| AppointmentForm.CreateCustomerRequest | src/components/calendar/AppointmentForm.tsx:69-77 | no request unless name, phone and the user's salon are all present; the request carries them |
| AppointmentForm.CreateCustomerBlocked | src/components/calendar/AppointmentForm.tsx:70 | the create handler returns early when the name or the phone is empty or the user has no salon (see CreateCustomerRequest) |
| AppointmentForm.AfterCreateCustomer | src/components/calendar/AppointmentForm.tsx:69-88 | blocked: unchanged; created: customer selected, sub-form hidden, name and phone cleared, success alert; failed: error alert only |
| AppointmentForm.DateTimeSplits | src/components/calendar/AppointmentForm.tsx:96-97 | the payload time splits at 'T' into the date and the time followed by ":00Z" |
| AppointmentForm.DateTime | src/components/calendar/AppointmentForm.tsx:96-97 | the text is the date, 'T', the time and ":00Z", each at its own position |
| AppointmentForm.PayloadOf | src/components/calendar/AppointmentForm.tsx:99-107 | the payload carries `${date}T${time}:00Z` for both times and copies salon, user, customer, comment and column |
| AppointmentForm.Submit | src/components/calendar/AppointmentForm.tsx:90-121 | no customer or no user: no payload, error alert "Please select a customer"; otherwise the payload is sent, and on success a success alert and a scheduled close, on failure an error alert |
| AppointmentForm.SubmitBlocked | src/components/calendar/AppointmentForm.tsx:91 | the submit handler stops when no customer is selected or no user is signed in (see Submit) |
| AppointmentForm.EndBeforeStartIsSent | src/components/calendar/AppointmentForm.tsx:90-107 | a booking ending before it starts is sent unchanged |
| AppointmentForm.Edit | src/components/calendar/AppointmentForm.tsx:221-398 | each text input changes only its own field |
| AppointmentForm.Form.HandleClose | src/components/calendar/AppointmentForm.tsx:48-62 | the form resets and the store's open flag becomes false |
| AppointmentForm.Form.ChangeStartTime | src/components/calendar/AppointmentForm.tsx:329-346 | the form's state becomes `ChangeStart` of the old state |
| AppointmentForm.Form.ToggleNewCustomerForm | src/components/calendar/AppointmentForm.tsx:194-196 | only the sub-form flag flips |
| AppointmentForm.Form.DismissAlert | src/components/calendar/AppointmentForm.tsx:435-441 | only the alert is hidden |
| AppointmentForm.Form.OnCustomerChange | src/components/calendar/AppointmentForm.tsx:187 | only the selected customer changes, to the one picked |
| AppointmentForm.Form.OnTextInput | src/components/calendar/AppointmentForm.tsx:221-398 | the form's state becomes `Edit` of the old state for that input |
| AppointmentForm.Form.OnColumnChange | src/components/calendar/AppointmentForm.tsx:281-284 | the form's state becomes `ChangeColumn` of the old state |
| AppointmentForm.Form.HandleCreateCustomer | src/components/calendar/AppointmentForm.tsx:69-88 | sends `CreateCustomerRequest` and moves to `AfterCreateCustomer` |
| AppointmentForm.Form.HandleSubmit | src/components/calendar/AppointmentForm.tsx:90-121 | sends what `Submit` sends and moves to its state |
| CalendarView.ToAppointment | src/components/calendar/CalendarView.tsx:61-77 | date is the UTC "YYYY-MM-DD", start is the UTC "HH:mm", end is one hour later modulo 24 |
| CalendarView.StartTime | src/components/calendar/CalendarView.tsx:64 | for a valid hour and minute the "HH:mm" text reads back as that hour and minute |
| CalendarView.EndTime | src/components/calendar/CalendarView.tsx:66 | the end text reads back as the next hour modulo 24 and the same minute |
| CalendarView.ToAppointments | src/components/calendar/CalendarView.tsx:61 | one appointment per booking, in order |
| CalendarView.StartReadsBack | src/components/calendar/CalendarView.tsx:64 | an appointment's start reads back as its booking's UTC hour and minute |
| CalendarView.HourLaterWraps | src/components/calendar/CalendarView.tsx:66 | the end is 60 minutes after the start, modulo a day |
| CalendarView.EndIsOneHourLater | src/components/calendar/CalendarView.tsx:66 | an appointment's end reads back as its booking's hour plus one modulo 24 and the same minute |
| CalendarView.IdReadsBack | src/components/calendar/CalendarView.tsx:71 | the id is `String(booking.id)` exactly, and `parseInt` reads it back as the booking id |
| CalendarView.IdsDistinct | src/components/calendar/CalendarView.tsx:71 | bookings with different ids get appointments with different ids |
| CalendarView.TitleFallback | src/components/calendar/CalendarView.tsx:75 | the title is the comment when that is non-empty and "Appointment #" followed by the booking id otherwise; it is never empty, and the fallback's number reads back as the id |
| CalendarView.DateReadsBack | src/components/calendar/CalendarView.tsx:72 | the date string reads back as the booking's year, month and day |
| CalendarView.DailyAppointments | src/components/calendar/CalendarView.tsx:141-144 | exactly the appointments dated on the selected day |
| CalendarView.DailyInOrder | src/components/calendar/CalendarView.tsx:143 | the day filter distributes over concatenation, so it keeps order |
| CalendarView.BookingShownOnItsDay | src/components/calendar/CalendarView.tsx:61-77 | every booking appears in the list of its own UTC day |
| CalendarView.GridWholeWeeks | src/components/calendar/CalendarView.tsx:92-95 | the grid runs Sunday to Saturday, a multiple of 7 days, 28 to 42 days |
| CalendarView.GridStart | src/components/calendar/CalendarView.tsx:92-94 | the Sunday on or before the first of the month (proved in GridWholeWeeks and GridEndNumber) |
| CalendarView.GridEnd | src/components/calendar/CalendarView.tsx:93-95 | the Saturday on or after the last of the month (proved in GridWholeWeeks and GridEndNumber) |
| CalendarView.MonthDayInGrid | src/components/calendar/CalendarView.tsx:91-114 | every day of the selected month is in the grid, at its place |
| CalendarView.GridDaysDistinct | src/components/calendar/CalendarView.tsx:97-111 | the grid days are pairwise different |
| CalendarView.SelectedExactlyOnce | src/components/calendar/CalendarView.tsx:108 | exactly one grid day is the selected day |
| CalendarView.LeadingDaysInPreviousMonth | src/components/calendar/CalendarView.tsx:94-106 | days before the month's first day are in the previous month |
| CalendarView.TrailingDaysInNextMonth | src/components/calendar/CalendarView.tsx:95-106 | days after its last day are in the next month |
| CalendarView.CurrentMonthExactly | src/components/calendar/CalendarView.tsx:106 | a grid day is in the selected month exactly when it lies inside the month's run |
| CalendarView.MonthEndNumber | src/components/calendar/CalendarView.tsx:92-93 | the month's last day lies its length minus one days after its first |
| CalendarView.GridEndNumber | src/components/calendar/CalendarView.tsx:94-95 | the grid starts the lead days before the month and ends its length minus one days after its start |
| CalendarView.GridPrefixAt | src/components/calendar/CalendarView.tsx:97-111 | every entry of a grid prefix describes the grid day of its position |
| CalendarView.AppendGridDay | src/components/calendar/CalendarView.tsx:104-110 | one push of the loop keeps the list a prefix of the grid |
| CalendarView.CalendarDays | src/components/calendar/CalendarView.tsx:91-114 | the loop yields the grid: its length, and the k-th entry describes the k-th grid day |
| CalendarView.DayEntry | src/components/calendar/CalendarView.tsx:104-109 | the pushed object: the day as "YYYY-MM-DD", the month test only on the month, and whole-date tests for today and the selection (see SelectedExactlyOnce and CurrentMonthExactly) |
| CalendarView.DayLabelOfDate | src/components/calendar/CalendarView.tsx:411 | the label of a day is its day of month without a leading zero |
| CalendarView.DayLabel | src/components/calendar/CalendarView.tsx:411 | the last '-' field of the date with one leading zero removed (see DayLabelOfDate) |
| CalendarView.UnpaddedDay | src/components/calendar/CalendarView.tsx:411 | stripping one leading zero from a two-digit day gives its decimal text |
| CalendarView.AddMonths | src/components/calendar/CalendarView.tsx:354-365 | moving by months shifts the month count, keeps the day or clamps it to the month's end |
| CalendarView.MonthBackAndForth | src/components/calendar/CalendarView.tsx:354-365 | a month forward then back, or back then forward, returns to a day up to 28 |
| CalendarView.MonthStepsClampDay | src/components/calendar/CalendarView.tsx:354-365 | 31 January forward gives 28 February, and back gives 28 January |
| CalendarView.Calendar.FetchAppointments | src/components/calendar/CalendarView.tsx:54-88 | a result replaces the appointments with the transformed bookings; a failure keeps them; loading ends either way |
| CalendarView.Calendar.Daily | src/components/calendar/CalendarView.tsx:141-144 | the day filter of the page: DailyAppointments of its appointments and the selected date as "YYYY-MM-DD" (see BookingShownOnItsDay) |
| CalendarView.Calendar.HandlePreviousDay | src/components/calendar/CalendarView.tsx:124-126 | the selected date moves one day back |
| CalendarView.Calendar.HandleNextDay | src/components/calendar/CalendarView.tsx:128-130 | the selected date moves one day forward |
| CalendarView.Calendar.HandleToday | src/components/calendar/CalendarView.tsx:132-134 | the selected date becomes today |
| CalendarView.Calendar.SelectDay | src/components/calendar/CalendarView.tsx:386 | clicking a grid day selects it |
| CalendarView.Calendar.ShiftMonth | src/components/calendar/CalendarView.tsx:354-365 | the month buttons move the selected date by one month |
| CalendarView.Calendar.HandleAddEvent | src/components/calendar/CalendarView.tsx:136-138 | the store's form flag becomes true |
| Dates.NextDayNumber | src/components/calendar/CalendarView.tsx:110-129 | adding a day moves one day forward |
| Dates.NextDay | src/components/calendar/CalendarView.tsx:110 | `add(1, "day")` yields a valid date (its position on the day count is NextDayNumber) |
| Dates.PrevDay | src/components/calendar/CalendarView.tsx:125 | `subtract(1, "day")` yields a valid date (its position on the day count is PrevDayNumber) |
| Dates.PrevDayNumber | src/components/calendar/CalendarView.tsx:125 | subtracting a day moves one day back |
| Dates.PrevNextInverse | src/components/calendar/CalendarView.tsx:124-130 | previous day and next day undo each other |
| Dates.AdvanceNumber | src/components/calendar/CalendarView.tsx:110 | k steps forward are k days later |
| Dates.FormatDateReads | src/components/calendar/CalendarView.tsx:72-105 | "YYYY-MM-DD" reads back as year, month and day |
| Dates.FormatDate | src/components/calendar/CalendarView.tsx:72 | `format("YYYY-MM-DD")`: the year padded to four characters, month and day to two (read back in FormatDateReads) |
| Dates.FormatDateInjective | src/components/calendar/CalendarView.tsx:142-143 | different dates give different "YYYY-MM-DD" strings |
| Clock.ClockRoundTrip | src/components/calendar/DayViewWithSlots.tsx:76 | a zero-padded "HH:MM" reads back as its hour and minute |
| Clock.FormatClock | src/components/calendar/AppointmentForm.tsx:127-129 | the two fields zero-padded to two characters around ":" (shape in ClockShape, read-back in ClockRoundTrip) |
| Clock.ClockParts | src/components/calendar/DayViewWithSlots.tsx:76-77 | `split(":").map(Number)` destructured into two numbers, a missing second part read as NaN (see ClockRoundTrip) |
| Clock.ClockShape | src/components/calendar/AppointmentForm.tsx:127-129 | "HH:MM" has length 5, a colon at index 2 and digits elsewhere |
| CustomerSearchSelect.FilteredCustomers | src/components/forms/CustomerSearchSelect.tsx:48-58 | an empty query keeps the list; otherwise a customer is kept exactly when its lower-cased name contains the lower-cased query |
| CustomerSearchSelect.NameMatches | src/components/forms/CustomerSearchSelect.tsx:53-57 | the lower-cased name includes the lower-cased query (used both ways in FilteredCustomers and QueryCaseIgnored) |
| CustomerSearchSelect.FilteredInOrder | src/components/forms/CustomerSearchSelect.tsx:53-57 | the result is an order-preserving subsequence of the list |
| CustomerSearchSelect.FilterTwice | src/components/forms/CustomerSearchSelect.tsx:53-57 | filtering twice with the same query equals filtering once |
| CustomerSearchSelect.QueryCaseIgnored | src/components/forms/CustomerSearchSelect.tsx:56 | lower-casing the query first changes nothing |
| CustomerSearchSelect.Panel | src/components/forms/CustomerSearchSelect.tsx:97-114 | options are shown only as the non-empty filtered list, and conversely, when nothing is loading or waiting for the debounce and the filtered list is non-empty, exactly that list is shown |
| CustomerSearchSelect.ListingText | src/components/forms/CustomerSearchSelect.tsx:97-113 | each message has its own non-empty text, and only the option list has none |
| CustomerSearchSelect.LoadingFirst | src/components/forms/CustomerSearchSelect.tsx:97-100 | while loading, the loading text wins over everything |
| CustomerSearchSelect.SearchingExactly | src/components/forms/CustomerSearchSelect.tsx:101-104 | "Searching..." shows exactly when a typed query has not settled yet |
| CustomerSearchSelect.NoneFoundExactly | src/components/forms/CustomerSearchSelect.tsx:105-108 | "No customers found." shows exactly for an empty result of a settled non-empty query |
| CustomerSearchSelect.NoneAvailableExactly | src/components/forms/CustomerSearchSelect.tsx:109-113 | when not loading, "No customers available." shows exactly when there is no query, no debounced query and no customer |
| CustomerSearchSelect.NoQueryShowsEverything | src/components/forms/CustomerSearchSelect.tsx:109-114 | with no query, an empty list says "No customers available." and otherwise the whole list shows |
| CustomerSearchSelect.DisplayValue | src/components/forms/CustomerSearchSelect.tsx:76-78 | the input shows the selected customer's name, or "" for none |
| CustomerSearchSelect.Type | src/components/forms/CustomerSearchSelect.tsx:79 | typing sets the query; the debounced value waits |
| CustomerSearchSelect.Settle | src/components/forms/CustomerSearchSelect.tsx:20-45 | once the delay passes, the debounced value catches up with the query |
| CustomerSearchSelect.SelectionChanged | src/components/forms/CustomerSearchSelect.tsx:61-65 | a selected customer clears the query; no selection changes nothing |
| CustomerSearchSelect.AfterLeave | src/components/forms/CustomerSearchSelect.tsx:94 | closing the options clears the query |
| CustomerSearchSelect.SelectionEndsSearch | src/components/forms/CustomerSearchSelect.tsx:61-101 | after a selection nothing says "Searching...", and once settled the whole list shows again |
| CustomerSearchSelect.TypedQueryFilters | src/components/forms/CustomerSearchSelect.tsx:45-79 | after typing and settling, a customer is listed exactly when its name matches the typed text |
| CustomerSearchSelect.Picker.OnInput | src/components/forms/CustomerSearchSelect.tsx:79 | the query becomes the typed text |
| CustomerSearchSelect.Picker.DebounceElapsed | src/components/forms/CustomerSearchSelect.tsx:23-31 | the debounced query catches up |
| CustomerSearchSelect.Picker.OnSelectedCustomer | src/components/forms/CustomerSearchSelect.tsx:61-65 | the selection effect runs |
| CustomerSearchSelect.Picker.OnAfterLeave | src/components/forms/CustomerSearchSelect.tsx:94 | the query is cleared |
| CustomersView.StartEdit | src/components/customers/CustomersView.tsx:50-56 | editing starts on the customer's id with its name and phone copied |
| CustomersView.EditName | src/components/customers/CustomersView.tsx:216 | only the edited name changes |
| CustomersView.EditPhone | src/components/customers/CustomersView.tsx:230 | only the edited phone changes |
| CustomersView.CancelEdit | src/components/customers/CustomersView.tsx:58-61 | no customer is edited and both fields are empty; delete prompt and alert are kept |
| CustomersView.SaveRequest | src/components/customers/CustomersView.tsx:63-70 | an update is sent exactly when the edited id is truthy, carrying that id and the edited fields |
| CustomersView.AfterSave | src/components/customers/CustomersView.tsx:63-85 | no-op without an edit; success: success alert and edit cleared; failure: error alert and still editing |
| CustomersView.AskDelete | src/components/customers/CustomersView.tsx:87-89 | only the pending delete id changes |
| CustomersView.DeleteRequest | src/components/customers/CustomersView.tsx:91-95 | a delete is sent exactly when the pending id is truthy, for that id |
| CustomersView.AfterConfirmDelete | src/components/customers/CustomersView.tsx:91-110 | no-op without a pending id; otherwise the prompt ends, the edit is kept, and the alert is "Customer deleted successfully!" on success and the error "Failed to delete customer." on failure |
| CustomersView.CancelDelete | src/components/customers/CustomersView.tsx:112-114 | only the pending delete is cleared |
| CustomersView.DismissAlert | src/components/customers/CustomersView.tsx:352-354 | only the alert is hidden |
| CustomersView.SaveSendsEditedCustomer | src/components/customers/CustomersView.tsx:50-70 | saving right after starting an edit sends the customer's own data |
| CustomersView.CancelUndoesEdit | src/components/customers/CustomersView.tsx:50-61 | start, edit and cancel return to the idle state |
| CustomersView.SaveOutcome | src/components/customers/CustomersView.tsx:71-83 | success ends the edit; failure keeps id and data; the alert kind follows the outcome |
| CustomersView.ConfirmAlwaysEndsPrompt | src/components/customers/CustomersView.tsx:87-110 | after asking, confirming sends the id and ends the prompt on success and on failure |
| CustomersView.CancelUndoesAsk | src/components/customers/CustomersView.tsx:87-114 | asking then cancelling returns to the state before |
| CustomersView.RowModeOf | src/components/customers/CustomersView.tsx:209-305 | a row edits exactly when it is the edited customer; it asks to confirm only when it is the pending delete and not edited |
| CustomersView.PageOf | src/components/customers/CustomersView.tsx:117-182 | restricted exactly when the user is neither owner nor staff; a table has one row per customer in its mode |
| CustomersView.MayManage | src/components/customers/CustomersView.tsx:117 | the page is open to a signed-in owner or staff member only (see PageOf) |
| CustomersView.AtMostOneSpecialRow | src/components/customers/CustomersView.tsx:207-265 | with distinct ids at most one row edits and at most one asks to confirm |
| CustomersView.Controller.HandleStartEditCustomer | src/components/customers/CustomersView.tsx:50-56 | the state becomes `StartEdit` of the old one |
| CustomersView.Controller.OnNameInput | src/components/customers/CustomersView.tsx:216 | the state becomes `EditName` of the old one |
| CustomersView.Controller.OnPhoneInput | src/components/customers/CustomersView.tsx:230 | the state becomes `EditPhone` of the old one |
| CustomersView.Controller.HandleCancelEditCustomer | src/components/customers/CustomersView.tsx:58-61 | the state becomes `CancelEdit` of the old one |
| CustomersView.Controller.HandleSaveCustomer | src/components/customers/CustomersView.tsx:63-85 | sends `SaveRequest` and moves to `AfterSave` |
| CustomersView.Controller.HandleDeleteCustomer | src/components/customers/CustomersView.tsx:87-89 | the state becomes `AskDelete` of the old one |
| CustomersView.Controller.HandleConfirmDeleteCustomer | src/components/customers/CustomersView.tsx:91-110 | sends `DeleteRequest` and moves to `AfterConfirmDelete` |
| CustomersView.Controller.HandleCancelDeleteCustomer | src/components/customers/CustomersView.tsx:112-114 | the state becomes `CancelDelete` of the old one |
| CustomersView.Controller.OnAlertDismiss | src/components/customers/CustomersView.tsx:352-354 | the state becomes `DismissAlert` of the old one |
| AppointmentDetailsModal.Mount | src/components/calendar/AppointmentDetailsModal.tsx:38-71 | after the first render the listeners match `isOpen`, with nothing closed or deleted |
| AppointmentDetailsModal.Rerender | src/components/calendar/AppointmentDetailsModal.tsx:49-70 | new props replace the old; close and delete history is kept |
| AppointmentDetailsModal.MouseDown | src/components/calendar/AppointmentDetailsModal.tsx:38-46 | a mousedown changes at most the close count |
| AppointmentDetailsModal.KeyDown | src/components/calendar/AppointmentDetailsModal.tsx:58-63 | a keydown changes at most the close count |
| AppointmentDetailsModal.Delete | src/components/calendar/AppointmentDetailsModal.tsx:73-82 | no appointment: nothing; otherwise `parseInt(id)` is requested and the modal closes once on success only |
| AppointmentDetailsModal.ListenersOnlyWhileOpen | src/components/calendar/AppointmentDetailsModal.tsx:49-70 | every step keeps the listeners installed exactly while open |
| AppointmentDetailsModal.EscapeCloses | src/components/calendar/AppointmentDetailsModal.tsx:59-63 | Escape closes an open modal once; other keys, or a closed modal, do nothing |
| AppointmentDetailsModal.OutsideClickCloses | src/components/calendar/AppointmentDetailsModal.tsx:40-46 | a mousedown outside an open modal closes it once; inside, or closed, nothing |
| AppointmentDetailsModal.ClosedModalIgnoresEvents | src/components/calendar/AppointmentDetailsModal.tsx:49-70 | once closed, no listener remains and no event has an effect |
| AppointmentDetailsModal.DeleteSendsBookingNumber | src/components/calendar/AppointmentDetailsModal.tsx:77 | the delete asks for the number the id was written from |
| AppointmentDetailsModal.Render | src/components/calendar/AppointmentDetailsModal.tsx:84-103 | nothing renders exactly when there is no appointment; the dialog shows exactly while open |
| AppointmentDetailsModal.Modal.Update | src/components/calendar/AppointmentDetailsModal.tsx:49-70 | the state becomes `Rerender` of the old one |
| AppointmentDetailsModal.Modal.DispatchMouseDown | src/components/calendar/AppointmentDetailsModal.tsx:38-46 | the state becomes `MouseDown` of the old one |
| AppointmentDetailsModal.Modal.DispatchKeyDown | src/components/calendar/AppointmentDetailsModal.tsx:58-63 | the state becomes `KeyDown` of the old one |
| AppointmentDetailsModal.Modal.HandleDelete | src/components/calendar/AppointmentDetailsModal.tsx:73-82 | the state becomes `Delete` of the old one |
| AppointmentStore.SelectTimeSlot | src/stores/appointmentStore.ts:21 | only the selected slot changes |
| AppointmentStore.SetFormOpen | src/stores/appointmentStore.ts:22 | only the open flag changes |
| AppointmentStore.Clear | src/stores/appointmentStore.ts:23 | the slot is null and the form closed |
| AppointmentStore.ClearIdempotent | src/stores/appointmentStore.ts:21-23 | clearing twice equals once, and clearing erases either setter |
| AppointmentStore.SettersCommute | src/stores/appointmentStore.ts:21-22 | the two setters touch separate fields, so their order does not matter |
| AppointmentStore.SelectedColumnId | src/stores/appointmentStore.ts:10-16 | the store has no column, so reading one gives nothing |
| AppointmentStore.Store.constructor | src/stores/appointmentStore.ts:19-20 | the store starts with no slot and the form closed |
| AppointmentStore.Store.SetSelectedTimeSlot | src/stores/appointmentStore.ts:21 | the state becomes `SelectTimeSlot` of the old one |
| AppointmentStore.Store.SetAppointmentFormOpen | src/stores/appointmentStore.ts:22 | the state becomes `SetFormOpen` of the old one |
| AppointmentStore.Store.ClearSelection | src/stores/appointmentStore.ts:23 | the state becomes `Clear` of the old one |
| UserStore.Assign | src/stores/userStore.ts:12 | the user becomes the one given |
| UserStore.Cleared | src/stores/userStore.ts:13 | the user becomes null |
| UserStore.ClearIdempotent | src/stores/userStore.ts:12-13 | clearing twice equals once, and setting null equals clearing |
| UserStore.LastWriteWins | src/stores/userStore.ts:12-13 | an earlier set or clear leaves no trace |
| UserStore.Store.constructor | src/stores/userStore.ts:11 | the user starts null |
| UserStore.Store.SetUser | src/stores/userStore.ts:12 | the user becomes the one given |
| UserStore.Store.ClearUser | src/stores/userStore.ts:13 | the user becomes null |
| UserStoreInitializer.Render | src/components/UserStoreInitiliazer.tsx:13-16 | the first render writes the user and raises the flag; later renders change nothing |
| UserStoreInitializer.AtMostOneWrite | src/components/UserStoreInitiliazer.tsx:12-16 | over any renders the store holds the first user and is written exactly once |
| UserStoreInitializer.AfterInitialized | src/components/UserStoreInitiliazer.tsx:13 | once the flag is up, renders with any users change nothing |
| UserStoreInitializer.FlagNeverReverts | src/components/UserStoreInitiliazer.tsx:12-16 | the flag never goes back down |
| UserStoreInitializer.Initializer.constructor | src/components/UserStoreInitiliazer.tsx:12 | a new instance starts with the flag down and no writes |
| UserStoreInitializer.Initializer.RenderOnce | src/components/UserStoreInitiliazer.tsx:11-17 | one render moves to `Render` of the old state; it returns null |
| Tokens.NoExpiryNeverExpires | src/utils/tokens.tsx:8 | a token without a numeric expiry is never expired |
| Tokens.CurrentSecond | src/utils/tokens.tsx:4 | the current second is the floor of the milliseconds over 1000 |
| Tokens.IsTokenExpired | src/utils/tokens.tsx:3-9 | expired when the token has a numeric `exp` below the current second (see ExpiredIffSecondPassed) |
| Tokens.ExpiredIffSecondPassed | src/utils/tokens.tsx:4-8 | expired exactly when `exp` is below the current whole second |
| Tokens.NotExpiredInItsOwnSecond | src/utils/tokens.tsx:8 | during the second `exp` itself the token is valid |
| Tokens.ExpiryMonotone | src/utils/tokens.tsx:4-8 | once expired, expired at every later time |
| UseSalon.Lists | src/hooks/useSalon.ts:14 | the lists key is ["salons", "list"] |
| UseSalon.List | src/hooks/useSalon.ts:15 | a list key is the lists key plus the parameters |
| UseSalon.Details | src/hooks/useSalon.ts:16 | the details key is ["salons", "detail"] |
| UseSalon.Detail | src/hooks/useSalon.ts:17 | a detail key is ["salons", "detail", id] |
| UseSalon.KeysStartWithSalons | src/hooks/useSalon.ts:12-19 | every key starts with "salons" |
| UseSalon.ListsPrefixOfList | src/hooks/useSalon.ts:14-15 | the lists key is a prefix of every list key, one element shorter |
| UseSalon.DetailKeysDistinct | src/hooks/useSalon.ts:14-18 | detail keys differ exactly when ids differ, and no detail key is, or is under, a list key |
| UseSalon.ListKeysDistinct | src/hooks/useSalon.ts:15 | list keys differ exactly when parameters differ |
| UseSalon.GetSalonOptions | src/hooks/useSalon.ts:22-34 | the key is the salon's detail key; stale after 5 minutes, collected after 10 |
| UseSalon.EnabledRule | src/hooks/useSalon.ts:29 | enabled exactly when the id is non-zero and the caller did not pass `enabled: false` |
| UseSalon.OrDefault | src/hooks/useSalon.ts:29-30 | `a ?? b` on an optional boolean: the value when present, the default otherwise (see EnabledRule and RefetchOffByDefault) |
| UseSalon.RefetchOffByDefault | src/hooks/useSalon.ts:30 | refetch on focus only when the caller asks for it |
| SalonApi.ApiUrl | src/api/salonApi.ts:10 | the configured URL when set, otherwise "http://localhost:8000/api/" |
| SalonApi.NumberParam | src/api/salonApi.ts:56-61 | a number is sent exactly when present and non-zero |
| SalonApi.TextParam | src/api/salonApi.ts:62-64 | a search text is sent exactly when present and non-empty |
| SalonApi.EncodePair | src/api/salonApi.ts:66 | an encoded pair holds '=' and no '&' |
| SalonApi.Serialize | src/api/salonApi.ts:66 | `URLSearchParams.toString()`: the encoded pairs joined with '&' (its properties are proved in SerializeEmptyIff and SerializeSplits) |
| SalonApi.SerializeEmptyIff | src/api/salonApi.ts:66 | the query string is empty exactly when nothing was appended |
| SalonApi.SerializeSplits | src/api/salonApi.ts:66 | the query string splits at '&' into the encoded pairs |
| SalonApi.EncodedPairSplits | src/api/salonApi.ts:66 | an encoded pair splits at '=' into its encoded name and value |
| SalonApi.SalonsUrl | src/api/salonApi.ts:66 | the API URL, "salons/", then '?' and the query string only when that is non-empty (proved in QuestionMarkIffParams and NoParamsNoQuery) |
| SalonApi.GetSalonsUrl | src/api/salonApi.ts:49-66 | the appends build the salons URL of the parameters that pass their tests |
| SalonApi.ParameterOrder | src/api/salonApi.ts:56-64 | names appear in the order page, page_size, search, each exactly when its value passes its test |
| SalonApi.NoParamsNoQuery | src/api/salonApi.ts:54-66 | with nothing to send the URL is exactly the API URL plus "salons/" |
| SalonApi.QuestionMarkIffParams | src/api/salonApi.ts:66 | a '?' follows "salons/" exactly when some parameter was sent |
| SalonApi.PageSentFirst | src/api/salonApi.ts:56-66 | a non-zero page is the first pair, "page=n" |
| SalonApi.HandleResponse | src/api/salonApi.ts:13-19 | a failed response ends exactly as `ErrorOutcome` says; an ok response returns exactly when its body is JSON and otherwise ends in the JSON syntax error of `response.json()` |
| SalonApi.ErrorOutcome | src/api/salonApi.ts:13-17 | a failed response always throws: a TypeError exactly for a `null` body, "Unknown error" for a body that is not JSON, the `message` as text when it is truthy, the status text otherwise |
| SalonApi.Truthy | src/api/salonApi.ts:16 | `Boolean(v)`: false exactly for "", 0, false, null and undefined (used in ErrorOutcome) |
| SalonApi.ToText | src/api/salonApi.ts:16 | `String(v)` as `new Error` applies it (a truthy value never reads as "", TruthyTextNonEmpty) |
| SalonApi.TruthyTextNonEmpty | src/api/salonApi.ts:16 | a truthy message never reads as the empty string |
| SalonApi.NumericMessageUsed | src/api/salonApi.ts:16 | a truthy non-string message such as 42 is thrown as its text, "42" |
| SalonApi.ErrorMessageCases | src/api/salonApi.ts:15-16 | for a failed response a thrown message is never empty; "Unknown error" for an unreadable body; a TypeError exactly for a `null` body; the text of a truthy `message` |
| SalonApi.StatusReported | src/api/salonApi.ts:16 | a failed response whose JSON has no truthy `message` throws "HTTP error! status: " followed by the status |
| SalonApi.DeleteSalon | src/api/salonApi.ts:97-113 | the delete returns normally exactly when the response is ok |
| SalonApi.DeleteAgreesOnFailure | src/api/salonApi.ts:106-109 | on a failed response the delete's own check ends exactly as the shared handler does |
| SalonApi.DeleteToleratesEmptyBody | src/api/salonApi.ts:97-113 | an ok delete with an empty body returns normally, while the shared handler would end in a JSON syntax error |
| ViewDropdown.Kept | src/components/utils/ViewDropdown.tsx:19-21 | the filter keeps at most as many entries as it is given |
| ViewDropdown.KeptIsFilter | src/components/utils/ViewDropdown.tsx:19-21 | the kept texts are the texts of `classes.filter(Boolean)`, in order |
| ViewDropdown.KeptTruthyInOrder | src/components/utils/ViewDropdown.tsx:19-21 | a text is kept exactly when some truthy argument has it; the truthy arguments form an order-preserving subsequence whose texts are the kept list |
| ViewDropdown.ClassNames | src/components/utils/ViewDropdown.tsx:19-21 | `classNames`: the kept texts joined with spaces (see KeptTruthyInOrder and ClassNamesSplit) |
| ViewDropdown.KeptFromTruthy | src/components/utils/ViewDropdown.tsx:20 | with string arguments no kept entry is empty |
| ViewDropdown.AllFalsyGivesEmpty | src/components/utils/ViewDropdown.tsx:19-21 | all-falsy arguments give "" |
| ViewDropdown.ClassNamesSplit | src/components/utils/ViewDropdown.tsx:19-21 | splitting the result at spaces gives the kept words back in order |
| ViewDropdown.Find | src/components/utils/ViewDropdown.tsx:29 | a found option is in the list with the current value; nothing is found exactly when no option has it |
| ViewDropdown.FindFirst | src/components/utils/ViewDropdown.tsx:29 | the first matching option is the one found |
| ViewDropdown.CurrentLabel | src/components/utils/ViewDropdown.tsx:29-37 | the label of the first option with the current value when that label is non-empty; the current view when that option's label is empty or no option has the value |
| ViewDropdown.LabelFallback | src/components/utils/ViewDropdown.tsx:37 | with no labelled match the label is the current view |
| ViewDropdown.ButtonText | src/components/utils/ViewDropdown.tsx:37 | the button reads the current label, a space and the button label, "view" by default (see CurrentLabel and LabelFallback) |
| ViewDropdown.OptionClass | src/components/utils/ViewDropdown.tsx:59-63 | an entry's classes: the hover class when active, "font-semibold" for the current view, then the fixed classes (see BoldExactlyCurrent) |
| ViewDropdown.BoldExactlyCurrent | src/components/utils/ViewDropdown.tsx:60-64 | an entry is bold exactly when its value is the current view |
| ViewDropdown.BoldEntries | src/components/utils/ViewDropdown.tsx:55-64 | across the menu, exactly the entries for the current view are bold |

## Left out

- Date parsing, formatting and locales of the date library are not modelled.
  A booking's time arrives already split into UTC date, hour and minute.
  Dates are a proleptic Gregorian calendar with years from 0 on. "Today" is
  a parameter.
- Network calls and `fetch` are not modelled. The fetched bookings, customers
  and users, each mutation's success or failure, and an HTTP response's ok
  flag, status and parsed body are all inputs.
- A response body is one of: not JSON, `null`, an object with its `message`
  value, or other JSON (whose `message` is `undefined`). A `message` is a
  string, an integer, a boolean, `null`, `undefined` or an object; an array
  `message` would read as its joined items, and it is modelled as a plain
  object, "[object Object]".
- The query library's caching, retries and invalidation are not modelled.
  So are the hooks that only wrap it: `useCustomers`, `useAppointments` and
  `useUser`.
- Timers are not modelled: the 300 ms debounce, the alert's automatic hiding
  and the form's 2000 ms delayed close. The debounce becomes an explicit
  "delay elapsed" step. The delayed close becomes a `closeScheduled` flag.
- Animation, the dialog/combobox/menu widgets, styling other than the
  classes named above, console logging and routing are not modelled.
- `Number` and `parseInt` trim ASCII whitespace only. JavaScript also trims
  U+00A0, U+FEFF, U+2028, U+2029 and the other Unicode space separators.
- Numbers are integers or NaN. `Number` and `parseInt` accept optional
  spaces, a sign and decimal digits. Fractions, exponents, hexadecimal and
  Infinity are not modelled.
- `toLowerCase` maps only ASCII letters; other letters keep their case.
  Strings are sequences of Unicode scalar values, and percent-encoding
  writes each one as its UTF-8 bytes.
- Customer name and phone are strings. The `|| ""` and `|| "-"` fallbacks for
  a missing value therefore only act on the empty string.
- CalendarView.Calendar.ShiftMonth: only steps of one month, as the two
  buttons make. A day that does not exist in the target month is clamped to
  the month's end, which is the date library's documented behaviour.
- The mini calendar's week starts on Sunday. The Monday-to-Sunday header
  labels are not modelled.
- The appointment slot's click handler is passed by its wrapper but never
  accepted, so it is not modelled.
- The dashboard's pixel-based day view, its sample data and the login form
  are not part of this model.
