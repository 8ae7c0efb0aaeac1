# Flight search pickers — a Dafny model

This project models the interactive core of a small Angular flight-search
page. The centre of it is the date picker
(`src/lib/shared/calendar/calendar.component.ts`), which has three parts:

- A Monday-first grid of 42 consecutive days for the displayed month and
  year. Each cell is flagged as in the displayed month, as today, or as
  the tentative selection.
- A selection controller. It holds three fields (`currentMonth`,
  `currentYear`, `selectedDate`) and changes them through `ngOnInit`,
  `selectDate`, `onMonthChange` and `onYearChange`.
- A serialiser. It commits the selection as `YYYY-MM-DD`, which is the
  `full-date` of section 5.6 of RFC 3339 for four-digit years.

Around it the project models four smaller parts:

- The filter sidebar: collapsible sections, stop-count checkboxes,
  minute sliders, the emitted filter set, and the `HH:MM` rendering of a
  minute of the day.
- The airport picker: a case-insensitive substring filter over a fixed
  table, and the `name (code)` text written on selection.
- The price strip: entries marked as selected against a picked date, and
  their class tokens.
- The host page's handlers. They update the search-parameter record, the
  calendar popup's visibility and the sort tabs.

Dates are naive proleptic-Gregorian triples `(year, month 0..11, day)`.
They convert one-to-one to a day number counted from 0000-01-01, which
was a Saturday (`dates.dfy`). Both JavaScript `Date` operations the
picker relies on are stated in those terms:

- `new Date(y, m, 1)` is `MonthStart`. It reads years 0..99 as 1900..1999.
- `setDate(n)` is `SetDate` and `SetDateOf`. It counts on across month
  and year ends in either direction.

The state each component changes in place is a `class`. Each signal or
field becomes a Dafny field that its handlers reassign.

The pieces outside the model become parameters:

- `@Output` emissions are the handlers' return values.
- The `new Date()` the code reads for "now" and "today" is a parameter.
- The price list the service delivers is a parameter.

## Model

| member | source | states |
|---|---|---|
| Dates.DaysInMonth | src/lib/shared/calendar/calendar.component.ts:117-118 | February has 29 days in leap years and 28 otherwise; April, June, September and November have 30; January, March, May, July, August, October and December have 31 |
| Dates.AddDays | src/lib/shared/calendar/calendar.component.ts:125 | moving a date by k days gives a valid date whose day number is k more |
| Dates.SetDateOf | src/lib/shared/calendar/calendar.component.ts:125 | `setDate(n)` yields a valid date n - d.day days from d, carrying across month and year ends |
| Dates.SetDate | src/lib/shared/calendar/calendar.component.ts:144 | `setDate(n)` as a function of the date: a valid date n - d.day days from d, carrying across month and year ends |
| Dates.SetDateTomorrow | src/lib/shared/calendar/calendar.component.ts:144 | `setDate(getDate() + 1)` is exactly the next calendar day, including 31 December to 1 January and 28/29 February |
| Dates.SetDateInMonth | src/lib/shared/calendar/calendar.component.ts:125 | an in-range day of the month is set without any carrying |
| Dates.MonthStart | src/lib/shared/calendar/calendar.component.ts:117 | `new Date(year, month, 1)` is day 1 of the month, with two-digit years read as 19xx |
| Dates.Weekday | src/lib/shared/calendar/calendar.component.ts:124 | `getDay()` lies in 0..6 |
| Dates.NextWeekday | src/lib/shared/calendar/calendar.component.ts:144 | the next day's weekday is one later, Saturday wrapping to Sunday |
| Dates.NextDay | src/lib/shared/calendar/calendar.component.ts:144 | the calendar day after a date, carrying into the next month and year; NextDayNumber and NextWeekday state that it is valid, one day number later and one weekday later |
| Dates.NextDayNumber | src/lib/shared/calendar/calendar.component.ts:144 | the next calendar day is valid and its day number is one more |
| Dates.DayNumberInjective | src/lib/shared/calendar/calendar.component.ts:150-154 | two valid dates with the same day number are the same date |
| Calendar.IsSameDay | src/lib/shared/calendar/calendar.component.ts:150-154 | true exactly when day, month and year all agree, that is, when the dates are equal |
| Calendar.MondayOffset | src/lib/shared/calendar/calendar.component.ts:124 | the Monday-first column `(getDay() + 6) % 7` lies in 0..6 |
| Calendar.GridDay | src/lib/shared/calendar/calendar.component.ts:122-128 | cell i is a valid date lying i days after the Monday on or before the 1st |
| Calendar.CalendarComponent.GenerateCalendarDays | src/lib/shared/calendar/calendar.component.ts:114-148 | the 42-iteration loop that steps with `setDate(getDate() + 1)` returns exactly the grid `CalendarGrid` for the displayed month and year, today and the selection |
| Calendar.GridPrefixIsPrefix | src/lib/shared/calendar/calendar.component.ts:127-145 | pushing cells one day at a time builds the grid's own prefix |
| Calendar.DayCell | src/lib/shared/calendar/calendar.component.ts:131-142 | the cell pushed for a day; GridCurrentMonth and GridSelection state its `isCurrentMonth`, `isToday` and `isSelected` flags |
| Calendar.CalendarGrid | src/lib/shared/calendar/calendar.component.ts:127-147 | the 42-cell grid `generateCalendarDays` returns; GridConsecutive, GridWeekdays, GridCurrentMonth, GridShowsDay, GridMonthDaysDistinct and GridSelection describe it |
| Calendar.GridConsecutive | src/lib/shared/calendar/calendar.component.ts:127-147 | the grid has 42 cells; each is a valid date whose `date` field is its day of the month; each is exactly the calendar day after the one before |
| Calendar.GridWeekdays | src/lib/shared/calendar/calendar.component.ts:122-125 | the first cell is a Monday 0..6 days on or before the 1st; column i % 7 is a fixed weekday; the last cell is a Sunday |
| Calendar.ColumnWeekday | src/lib/shared/calendar/calendar.component.ts:124-125 | the day i days after the offset Monday falls on weekday (i + 1) % 7 |
| Calendar.GridCurrentMonth | src/lib/shared/calendar/calendar.component.ts:131-132 | `isCurrentMonth` holds iff the cell's month is the displayed one; such a cell is in the displayed year, with a day in 1..days-in-month |
| Calendar.GridShowsDay | src/lib/shared/calendar/calendar.component.ts:131-137 | every day 1..days-in-month of the displayed month appears in some current-month cell |
| Calendar.GridMonthDaysDistinct | src/lib/shared/calendar/calendar.component.ts:131-137 | no day of the month appears in two current-month cells, so each appears exactly once |
| Calendar.GridSelection | src/lib/shared/calendar/calendar.component.ts:120-154 | `isSelected` holds iff the selection is that cell's date, and `isToday` iff today is; no cell is selected without a selection; at most one cell is selected and at most one is today |
| Calendar.LeapFebruaryShown | src/lib/shared/calendar/calendar.component.ts:127-147 | February 2024 shows its 29th |
| Calendar.CommonFebruaryShort | src/lib/shared/calendar/calendar.component.ts:127-147 | February 2023 shows no 29 February |
| Calendar.DecemberCarriesIntoJanuary | src/lib/shared/calendar/calendar.component.ts:122-147 | December 2024 runs from Monday 25 November to Sunday 5 January 2025, carrying into the next year |
| Calendar.FormatDate | src/lib/shared/calendar/calendar.component.ts:203-208 | for a valid date: `String(year)`, '-', a two-digit field reading as the month 1..12, '-', a two-digit field reading as the day; FormatDateRoundTrip and ParseFullDateRoundTrip make it and ParseFullDate inverses on four-digit years |
| Calendar.ParseFullDate | src/main.ts:315-318 | a date read from a string comes only from a well-shaped `full-date` naming an existing day |
| Calendar.FormatDateRoundTrip | src/lib/shared/calendar/calendar.component.ts:203-208 | for four-digit years the committed string is a `full-date` that reads back as the same date |
| Calendar.ParseFullDateRoundTrip | src/lib/shared/calendar/calendar.component.ts:203-208 | a readable `full-date` without a leading zero is exactly what `formatDate` prints for its date |
| Calendar.FormatDateExample | src/lib/shared/calendar/calendar.component.ts:203-208 | 7 March 2024 is printed as "2024-03-07" (month 1-based, fields zero-padded) |
| Calendar.YearWindow | src/lib/shared/calendar/calendar.component.ts:100 | ten consecutive years starting with the current year |
| Calendar.CalendarComponent.constructor | src/lib/shared/calendar/calendar.component.ts:84-100 | no selection; the current month and year are displayed; the year window starts at the current year |
| Calendar.CalendarComponent.NgOnInit | src/lib/shared/calendar/calendar.component.ts:106-112 | an initial date seeds the selection, month and year; without one all three are unchanged |
| Calendar.CalendarComponent.SelectDate | src/lib/shared/calendar/calendar.component.ts:156-159 | a cell outside the displayed month changes nothing; any other cell's date becomes the selection, and nothing else changes |
| Calendar.CalendarComponent.OnMonthChange | src/lib/shared/calendar/calendar.component.ts:181-184 | only the displayed month changes; year and selection are kept |
| Calendar.CalendarComponent.OnYearChange | src/lib/shared/calendar/calendar.component.ts:186-189 | only the displayed year changes; month and selection are kept |
| Calendar.CalendarComponent.OnApply | src/lib/shared/calendar/calendar.component.ts:191-197 | emits nothing without a selection, otherwise the selection's `formatDate` string; no state changes |
| Calendar.CalendarComponent.OnCancel | src/lib/shared/calendar/calendar.component.ts:199-201 | emits `cancelled` and changes no state |
| Calendar.AprilPageShowsNoMarchSelection | src/lib/shared/calendar/calendar.component.ts:131-134 | with 7 March 2024 selected, no cell of the April 2024 page is marked selected |
| Calendar.OpenNavigateApply | src/lib/shared/calendar/calendar.component.ts:106-197 | opening on 7 March 2024 and moving to April keeps the selection off that page; moving back and applying emits "2024-03-07" |
| Text.NatToString | src/lib/shared/calendar/calendar.component.ts:204-206 | `String(n)` is a non-empty digit string with no leading zero |
| Text.ParseNatToString | src/lib/shared/calendar/calendar.component.ts:204-206 | reading back a printed natural gives the number |
| Text.NatToStringParse | src/lib/shared/calendar/calendar.component.ts:204-206 | a digit string with no leading zero is the printed form of its value |
| Text.PadStart | src/lib/shared/calendar/calendar.component.ts:205-206 | `padStart` keeps the string as the suffix, fills the front, and reaches the width |
| Text.Pad2Spec | src/lib/shared/calendar/calendar.component.ts:205-206 | for 0..99 the padded field is two digits that read back as the number |
| Text.Pad2Parse | src/lib/shared/calendar/calendar.component.ts:205-206 | every two-digit string is the padded field of its value |
| Text.ToLower | src/lib/shared/location-search/location-search.component.ts:96-101 | lower-casing keeps the length, turns each ASCII capital into its lower-case letter, and keeps every other character |
| Text.LowerKeeps | src/lib/shared/location-search/location-search.component.ts:96-101 | a character that is not a letter is present after lower-casing iff it was present before |
| FilterSidebar.Flip | src/components/filter-sidebar/filter-sidebar.component.ts:242-246 | the toggled section's flag is negated and the other two are kept |
| FilterSidebar.FlipTwice | src/components/filter-sidebar/filter-sidebar.component.ts:242-246 | toggling a section twice restores the record |
| FilterSidebar.StopList | src/components/filter-sidebar/filter-sidebar.component.ts:290-296 | the list holds `direct`, `1` and `2+` iff their box is ticked, nothing else, in that order with no duplicates |
| FilterSidebar.TruncRem | src/components/filter-sidebar/filter-sidebar.component.ts:307 | JavaScript's `%`: the Euclidean remainder for non-negative inputs, non-positive for negative ones, and smaller than the divisor in magnitude |
| FilterSidebar.FormatTime | src/components/filter-sidebar/filter-sidebar.component.ts:305-309 | `formatTime`, whose fields FormatTimeFields reads back, whose injectivity FormatTimeInjective states and whose ends FormatTimeEnds gives |
| FilterSidebar.FormatTimeFields | src/components/filter-sidebar/filter-sidebar.component.ts:305-309 | on the slider range 0..1439 the result is five characters `HH:MM` whose fields read back as the hour and the minute |
| FilterSidebar.FormatTimeInjective | src/components/filter-sidebar/filter-sidebar.component.ts:305-309 | distinct minutes of the day give distinct strings |
| FilterSidebar.FormatTimeEnds | src/components/filter-sidebar/filter-sidebar.component.ts:305-309 | the slider's ends print as "00:00" and "23:59" |
| FilterSidebar.FilterSidebarComponent.constructor | src/components/filter-sidebar/filter-sidebar.component.ts:220-240 | all sections shown, all boxes ticked, departure 0..1439, duration 180..2640 |
| FilterSidebar.FilterSidebarComponent.ToggleSection | src/components/filter-sidebar/filter-sidebar.component.ts:242-246 | the section record becomes its flip at the given section |
| FilterSidebar.FilterSidebarComponent.EmitFilters | src/components/filter-sidebar/filter-sidebar.component.ts:290-303 | the emitted set is the stop list of the current boxes plus the current departure and duration ranges |
| FilterSidebar.FilterSidebarComponent.OnDirectChange | src/components/filter-sidebar/filter-sidebar.component.ts:248-252 | only `direct` changes, then the filter set of the new state is emitted |
| FilterSidebar.FilterSidebarComponent.OnOneStopChange | src/components/filter-sidebar/filter-sidebar.component.ts:254-258 | only `oneStop` changes, then the filter set is emitted |
| FilterSidebar.FilterSidebarComponent.OnMultipleStopsChange | src/components/filter-sidebar/filter-sidebar.component.ts:260-264 | only `multipleStops` changes, then the filter set is emitted |
| FilterSidebar.FilterSidebarComponent.OnDepartureMinChange | src/components/filter-sidebar/filter-sidebar.component.ts:266-270 | only the departure minimum changes, then the filter set is emitted |
| FilterSidebar.FilterSidebarComponent.OnDepartureMaxChange | src/components/filter-sidebar/filter-sidebar.component.ts:272-276 | only the departure maximum changes, then the filter set is emitted |
| FilterSidebar.FilterSidebarComponent.OnJourneyMinChange | src/components/filter-sidebar/filter-sidebar.component.ts:278-282 | only the duration minimum changes, then the filter set is emitted |
| FilterSidebar.FilterSidebarComponent.OnJourneyMaxChange | src/components/filter-sidebar/filter-sidebar.component.ts:284-288 | only the duration maximum changes, then the filter set is emitted |
| FilterSidebar.UntickDirect | src/components/filter-sidebar/filter-sidebar.component.ts:220-303 | unticking "direct" on a fresh sidebar emits `["1", "2+"]` with the initial ranges |
| LocationSearch.Matches | src/lib/shared/location-search/location-search.component.ts:97-101 | the filter's test on one airport, over its four lower-cased fields; FilterByTerm, CaseInsensitive and NoMatchWithParenthesis state its use |
| LocationSearch.FilterByTerm | src/lib/shared/location-search/location-search.component.ts:97-102 | an airport is kept iff the term occurs in its lower-cased name, city, code or country, as often as it occurs in the table; the result is an order-preserving subsequence of the table |
| LocationSearch.Filtered | src/lib/shared/location-search/location-search.component.ts:93-103 | `filteredAirports`: membership iff the lower-cased term matches, with the table's multiplicities; an order-preserving subsequence; the whole table, in order, for an empty term |
| LocationSearch.LocationSearchComponent.FilteredAirports | src/lib/shared/location-search/location-search.component.ts:93-103 | the component's list for its current term: the matching airports of its table, as an order-preserving subsequence, and the whole table for an empty term |
| LocationSearch.Label | src/lib/shared/location-search/location-search.component.ts:135 | the `name (code)` text; SelectAirport and NgOnInit write it, and SelectedLabelListsNothing states what filtering by it lists |
| LocationSearch.CaseInsensitive | src/lib/shared/location-search/location-search.component.ts:96-101 | two terms that differ only in the case of their letters list the same airports in the same order |
| LocationSearch.EmptyTermKeepsAll | src/lib/shared/location-search/location-search.component.ts:93-103 | filtering by the empty term also keeps the whole table, so the shortcut agrees with the filter |
| LocationSearch.SubsequenceReflexive | src/lib/shared/location-search/location-search.component.ts:94 | the whole table is a subsequence of itself |
| LocationSearch.NoMatchWithParenthesis | src/lib/shared/location-search/location-search.component.ts:96-101 | a term containing '(' matches no airport whose searched fields contain none |
| LocationSearch.SelectedLabelListsNothing | src/lib/shared/location-search/location-search.component.ts:96-135 | once the input holds `name (code)`, the filter lists no airport without a parenthesis in its fields |
| LocationSearch.LocationSearchComponent.constructor | src/lib/shared/location-search/location-search.component.ts:74-91 | empty term, dropdown hidden, the fixed thirteen-airport table |
| LocationSearch.LocationSearchComponent.NgOnInit | src/lib/shared/location-search/location-search.component.ts:114-118 | a preselected airport's `name (code)` becomes the term; otherwise the term is unchanged |
| LocationSearch.LocationSearchComponent.OnSearchChange | src/lib/shared/location-search/location-search.component.ts:120-122 | the dropdown becomes visible, whatever it was, so the call is idempotent |
| LocationSearch.LocationSearchComponent.ShowDropdown | src/lib/shared/location-search/location-search.component.ts:124-126 | the dropdown becomes visible, whatever it was, so the call is idempotent |
| LocationSearch.LocationSearchComponent.SelectAirport | src/lib/shared/location-search/location-search.component.ts:134-138 | the term becomes `name (code)`, the dropdown closes, and the airport is emitted |
| LocationSearch.OpenThenPick | src/lib/shared/location-search/location-search.component.ts:93-138 | a fresh picker lists the whole table; picking Orly writes "Orly (ORY)" and emits Orly |
| PriceCalendar.FormatDay | src/components/price-calendar/price-calendar.component.ts:79-87 | `formatDay`: the day and the month's short name of a `full-date`, "NaN undefined" otherwise; FormatDayOfCommitted states it for committed dates |
| PriceCalendar.Entry | src/components/price-calendar/price-calendar.component.ts:45-50 | the entry built for one item; Load states its fields for every index |
| PriceCalendar.Load | src/components/price-calendar/price-calendar.component.ts:45-50 | one entry per item, in order, with date and price kept and the day caption formatted; selected iff the item's date is the `selectedDate` input |
| PriceCalendar.Reselect | src/components/price-calendar/price-calendar.component.ts:58-61 | length, order, date, price and day are kept; selected iff the entry's date is the picked one |
| PriceCalendar.ReselectLoad | src/components/price-calendar/price-calendar.component.ts:45-61 | picking a date on a loaded strip gives what loading with that date as input gives |
| PriceCalendar.ReselectTwice | src/components/price-calendar/price-calendar.component.ts:58-63 | picking twice is picking the second date |
| PriceCalendar.ReselectMarksOne | src/components/price-calendar/price-calendar.component.ts:58-63 | with distinct dates, the picked entry is the only one selected |
| PriceCalendar.FormatDayOfCommitted | src/components/price-calendar/price-calendar.component.ts:79-87 | the caption of a committed date (four-digit year) is its day, a space, and the month's short name |
| PriceCalendar.PriceDateClasses | src/components/price-calendar/price-calendar.component.ts:67-77 | five tokens starting `cursor-pointer hover:bg-blue-50`; contains `selected` iff the entry is selected |
| PriceCalendar.PriceCalendarComponent.constructor | src/components/price-calendar/price-calendar.component.ts:32-35 | empty strip; the input selection kept |
| PriceCalendar.PriceCalendarComponent.LoadPriceDates | src/components/price-calendar/price-calendar.component.ts:43-54 | the strip becomes the load mapping of the delivered items |
| PriceCalendar.PriceCalendarComponent.NgOnInit | src/components/price-calendar/price-calendar.component.ts:39-41 | the strip is loaded |
| PriceCalendar.PriceCalendarComponent.SelectDate | src/components/price-calendar/price-calendar.component.ts:56-65 | the strip is re-marked against the picked date, and that date is emitted |
| Host.Swapped | src/main.ts:381-387 | the two airports are exchanged; date and sort key are kept |
| Host.SwapTwice | src/main.ts:381-387 | swapping twice restores the parameters |
| Host.InitialDateFor | src/main.ts:315-318 | no date for a null or empty selection; a non-empty string is read as `ParseFullDate` reads it, giving a valid date or none |
| Host.CommittedDateReopens | src/main.ts:315-371 | a date the calendar commits and the page stores reopens the calendar on the same date |
| Host.App.constructor | src/main.ts:302-312 | popup hidden, no selection, "meilleur" sort, the initial search parameters |
| Host.App.NgOnInit | src/main.ts:322-327 | the selection becomes "2024-03-07" |
| Host.App.InitialDateForCalendar | src/main.ts:315-318 | the getter on the current selection; InitialDateFor states it, and CommittedDateReopens and PickDepartureDate what it yields after a commit |
| Host.App.OnDepartureSelected | src/main.ts:345-349 | only the departure code changes, to the airport's code |
| Host.App.OnDestinationSelected | src/main.ts:351-355 | only the arrival code changes, to the airport's code |
| Host.App.OnDateSelected | src/main.ts:357-363 | the date becomes the selection and the departure date; nothing else in the parameters changes |
| Host.App.OnCalendarDateSelected | src/main.ts:365-371 | as `onDateSelected`, and the popup is hidden |
| Host.App.ToggleCalendar | src/main.ts:373-375 | the popup's visibility is negated |
| Host.App.HideCalendar | src/main.ts:377-379 | the popup is hidden, whatever it was, so the call is idempotent |
| Host.App.SwapLocations | src/main.ts:381-387 | the parameters become their swap |
| Host.App.OnSortChange | src/main.ts:389-394 | only the sort key changes, to `sortBy` |
| Host.App.SetSortTab | src/main.ts:396-400 | the tab becomes the active tab, `sortBy` and the sort key |
| Host.App.SortTabClasses | src/main.ts:402-408 | four tokens starting `cursor-pointer`; contains `selected` iff the tab is active |
| Host.PickDepartureDate | src/main.ts:315-379 | picking and applying a day stores its `full-date` string as selection and departure date, hides the popup, and reopening shows that day |

## Left out

- Time zones, daylight saving and local time are not modelled. A `Date` is a naive `(year, month, day)`.
- Host.CommittedDateReopens, Host.PickDepartureDate and PriceCalendar.FormatDayOfCommitted hold only when dates are read as plain calendar dates without a time zone. In JavaScript `new Date("YYYY-MM-DD")` (`src/main.ts:317`, `src/components/price-calendar/price-calendar.component.ts:80`) is midnight UTC, while the calendar and the caption read it with local-time getters. West of UTC the calendar therefore reopens on the previous day, Apply without a new pick commits the previous day, and the strip's caption shows the previous day. The model does not capture this shift.
- JavaScript's string-to-date parsing in `new Date(str)` (`src/main.ts:317`, `formatDay`) is modelled only for the `YYYY-MM-DD` shape. Any other string, or a day that does not exist, gives no date. In `formatDay` that case gives `"NaN undefined"`.
- JavaScript's limit of about ±273,790 years on `Date` is not modelled; years are unbounded integers.
- Lower-casing is ASCII only. The accented letters of "Lyon-Saint-Exupéry" and "Nice Côte d'Azur" are already lower-case, so the table is unaffected. An accented capital in a typed term is not folded.
- Angular `computed()` memoisation and signal reactivity are not modelled. `filteredAirports` is the function of the current term, and `calendarDays` is `GenerateCalendarDays` called on demand.
- Handlers that rebuild a record with `{ ...params }` after mutating the signal's object in place are modelled as reassigning a value. Aliasing of that object is not modelled.
- The calendar popup, its toggle, both airport pickers and the swap button all sit in the page template under `*ngIf="!hasSearched()"` (`src/main.ts:29-141`). `ngOnInit` calls `searchFlights`, which sets `hasSearched` to true (`src/main.ts:326`, `src/main.ts:331`), and nothing sets it back. So the page as written hides these controls before its first render, and their handlers are never reached from it. The model states the handlers and their composition (Host.PickDepartureDate) on their own terms. It does not model template rendering.
- `searchFlights`, the service's observables and `rxjs` delays are not modelled. The price list is a parameter of `LoadPriceDates`, and the search started by `ngOnInit`, `onDateSelected` and `onSortChange` is left out.
- `hideDropdown`'s `setTimeout` and the document-click `@HostListener` are timers and DOM containment, so they are not modelled.
- `formatDuration` uses floating-point `toFixed`, so it is not modelled.
- `getDayClasses`, the templates, CSS and `bootstrapApplication` are presentation. Class strings that carry state are modelled as token lists.
- The unused `lastDay` and the day headers of the calendar are not modelled.
- The slider handlers' `parseInt` is modelled as an integer parameter. Nothing keeps `min <= max`, and neither does the source.
- The calendar neither closes on apply nor clears its selection on cancel. The host page hides it, and there is no guard on events after closing. The model follows the code here.
- Calendar.CalendarComponent.OnMonthChange: requires a month 0..11, the selector's options. The out-of-range month that `parseInt` of another value would set is not modelled.
- Calendar.FormatDateRoundTrip: stated for years 1000..9999. Other years do not print as a four-digit `full-date`.
- Calendar.ParseFullDateRoundTrip: requires a year without a leading zero, because `String(year)` prints none.
- LocationSearch.SelectedLabelListsNothing: stated for airports with no parenthesis in their searched fields. Every entry of the fixed table is one, but that is not proved entry by entry over the table literal.
- Calendar.YearWindow: states the window's first year and consecutiveness, read from a `now` parameter rather than the clock.
