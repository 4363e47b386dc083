# Campground administration: verified model of the business rules

This project models the business rules of a campground administration app, written in Dafny. It covers these source files:

- **Pricing** (`src/utils/pricing.ts`): the extra-person fee, the total with Quebec sales tax, and the deposit. Amounts are rounded to the cent at every step.
- **Vehicle eligibility** (`src/utils/spot-filters.ts`): which vehicle types a spot takes, and at what lengths.
- **French date parser** (`src/utils/date.ts`): reads texts such as "11 fév 2025" and gives an ISO date.
- **Record and form schemas** (`src/types/spot.types.ts`, `src/types/reservation.types.ts`, `src/types/customer.types.ts`): the enumerations, the record shapes, and the constraints the validation schemas place on them.
- **Fiscal month navigator** (`src/stores/fiscal.store.ts`): steps the fiscal period shown on screen one month back or forward.
- **Customer search** (`src/stores/customers.store.ts`): the local filter applied to the customer list.
- **Identifier truncation** (`src/utils/format.ts`).
- **Spot table cells** (`src/features/spots/SpotColumns.ts`): the vehicle summary cell and the dimensions cell.
- **Router** (`src/app/router.ts`): the route table and the navigation guard.

Modelling conventions:

- **Numbers.** A JavaScript `number` is an exact `real`. `Number.isInteger`, which the schemas' `.int()` uses, is `JsBuiltins.IsInteger`.
- **Rounding.** `Math.round(x * 100) / 100` is `Floor(x * 100 + 1/2) / 100`. This is `Math.round`'s "half up" rule.
- **Strings.** A string is a sequence of characters. The built-ins the code uses — `trim`, `toLowerCase`, `includes`, `<` on strings, `parseInt`, `padStart` — are written out in `js_builtins.dfy`.
- **Outside inputs.** The current year, and whether an authentication token is stored, become parameters.

Module layout:

- One module per source file: `Pricing`, `SpotFilters`, `FrenchDate`, `SpotTypes`, `ReservationTypes`, `CustomersStore`, `FiscalStore`, `Format`, `SpotColumns`, `Router`.
- Helper modules:
  - `Wrappers`: an option type for nullable values.
  - `JsBuiltins`: the JavaScript built-ins listed above.
  - `Sequences`: the order-preserving sub-sequence relation.

The fiscal navigator and the customer list update their state in place, so they are classes. Everything else is pure functions with lemmas.

Behaviour of the code worth knowing when reading the contracts:

- **Rounding rule.** `Math.round` rounds halves up, towards positive infinity. Prices are never negative, so on the amounts the code handles this is the same as rounding half away from zero.
- **Month indices.** The month table counts from January = 0: "février" maps to index 1. The output prints index + 1, so février appears as "02".
- **Calendar check.** The parser sends any day 1..31 to the date library, which sets that day on a date of the given year and month. A day past the end of its month, such as "31 avril", may be rolled over into the next month or refused by the library. That step is not modelled (see "Left out").
- **Reservation record constraints.** The record schema only checks that the adult and child counts are integers. Only the form schema checks that there is at least one adult and no negative child count (`ReservationTypes.ReservationSchemaWeakerThanForm`).
- **Reservation notes.** A note carries an id besides its text, its author and its timestamp.

## Model

| member | source | states |
|---|---|---|
| Pricing.RoundCurrency | src/utils/pricing.ts:6-8 | the result is a whole number of cents, at most half a cent below the amount and strictly less than half a cent above it |
| Pricing.RoundCurrencyUnique | src/utils/pricing.ts:6-8 | those two properties determine the rounded value: any whole-cents value within that window is the result |
| Pricing.RoundCurrencyOfCents | src/utils/pricing.ts:6-8 | an amount already in whole cents comes back unchanged |
| Pricing.RoundCurrencyIdempotent | src/utils/pricing.ts:6-8 | rounding twice is rounding once |
| Pricing.RoundCurrencyMonotone | src/utils/pricing.ts:6-8 | rounding preserves the order of two amounts |
| Pricing.RoundCurrencyShift | src/utils/pricing.ts:6-8 | adding whole cents before rounding is adding them after |
| Pricing.RoundCurrencyGap | src/utils/pricing.ts:6-8 | amounts at least $6 apart stay at least $6 apart after rounding |
| Pricing.ComputeExtraPersonFee | src/utils/pricing.ts:10-13 | the fee is whole cents, and zero for at most two adults whatever the number of nights |
| Pricing.ExtraPersonFeeExact | src/utils/pricing.ts:10-13 | for whole numbers with more than two adults, the fee is exactly (adults - 2) x 6 x nights |
| Pricing.ExtraPersonFeeNear | src/utils/pricing.ts:10-13 | for any adult count above two, the fee is within half a cent of (adults - 2) x 6 x nights |
| Pricing.ExtraPersonFeeExamples | src/utils/pricing.test.ts:10-35 | fees for (0,1), (1,3), (2,5) are 0; fee(3,2) = 12, fee(4,3) = 36, fee(5,1) = 18 |
| Pricing.ComputeTotalWithTax | src/utils/pricing.ts:15-21 | the total is always a whole number of cents |
| Pricing.Subtotal | src/utils/pricing.ts:16-18 | the rounded nightly price plus the fee is whole cents, so the rounding at line 18 is exact |
| Pricing.TotalIsSubtotalPlusTax | src/utils/pricing.ts:15-21 | total = subtotal + round(subtotal x 0.14975): the tax is rounded on its own and the final rounding changes nothing |
| Pricing.TotalNearExact | src/utils/pricing.ts:15-21 | the step-wise rounded total stays within 0.005 x 2.14975 of the taxed amount with the fee as charged, (price x nights + fee) x 1.14975 |
| Pricing.NoNightsNoCharge | src/utils/pricing.ts:15-21 | zero nights give a total of exactly 0, whatever the price and the adults |
| Pricing.BaseOccupancyNoFee | src/utils/pricing.ts:15-21 | up to two adults, the total equals the total with the adult count omitted (default 0), which is round(base + round(base x rate)) |
| Pricing.ExtraAdultFeeStep | src/utils/pricing.ts:10-13 | from two adults on, one more adult adds at least $6 to the fee for a stay of at least one night |
| Pricing.ExtraAdultCostsMore | src/utils/pricing.ts:15-21 | from two adults on, one more adult makes the total strictly larger for a stay of at least one night |
| Pricing.TotalExamples | src/utils/pricing.test.ts:39-95 | total(50,3,2) = 172.46, total(40,2,4) = 119.57, total(60,1) = 68.99, total(50,0,2) = 0 |
| Pricing.ComputeDeposit | src/utils/pricing.ts:23-25 | the deposit is whole cents, within half a cent of a quarter of the total |
| Pricing.DepositExamples | src/utils/pricing.test.ts:98-110 | deposit(200) = 50, deposit(33.33) = 8.33, deposit(0) = 0, deposit(172.46) = 43.12 |
| Pricing.DepositWithinTotal | src/utils/pricing.ts:23-25 | for a non-negative total in cents, 0 <= deposit <= total |
| SpotFilters.VehicleRange | src/utils/spot-filters.ts:13-24 | getVehicleRange gives null for every boolean vehicle type |
| SpotFilters.AcceptsVehicleLength | src/utils/spot-filters.ts:47-61 | a vehicle accepted at some length is of a type the spot accepts |
| SpotFilters.VehicleTypesPartitioned | src/utils/spot-filters.ts:4-10 | a type is ranged iff it is not boolean; ALL_VEHICLE_TYPES lists six distinct types, the ranged ones first, the same as the enumeration |
| SpotFilters.AcceptsVehicleType | src/utils/spot-filters.ts:27-44 | a ranged type is accepted iff the spot's range for it is not null; a boolean type iff its flag is set |
| SpotFilters.BooleanTypeAnyLength | src/utils/spot-filters.ts:52-58 | a boolean type is accepted at a length iff its flag is set, whatever the length |
| SpotFilters.RangedTypeLength | src/utils/spot-filters.ts:52-60 | a ranged type is accepted at a length iff the range exists and min <= length <= max, both ends included |
| SpotFilters.EligibilityExample | src/utils/spot-filters.ts:47-61 | a motorised range 20..35 takes 20, 30 and 35 feet but not 40; an unset tent flag refuses tents |
| SpotFilters.InvertedRangeAcceptsNoLength | src/utils/spot-filters.ts:54-60 | a range with min > max, which the schema allows, accepts the type but no length |
| SpotTypes.EnumerationsComplete | src/types/spot.types.ts:5-29 | five services, four statuses, six vehicle types, six ground types; each list is complete and has no repeats |
| SpotTypes.ParseService | src/types/spot.types.ts:5 | a code is accepted iff it is one of the five listed, and then gives the value with that code |
| SpotTypes.ParseStatus | src/types/spot.types.ts:8 | a code is accepted iff it is one of the four listed, and then gives the value with that code |
| SpotTypes.ParseVehicleType | src/types/spot.types.ts:11-18 | a code is accepted iff it is one of the six listed, and then gives the value with that code |
| SpotTypes.ParseGround | src/types/spot.types.ts:21-28 | a code is accepted iff it is one of the six listed, and then gives the value with that code |
| SpotTypes.CodesRoundTrip | src/types/spot.types.ts:5-29 | parsing a value's code gives the value back |
| SpotTypes.ServiceLabel | src/types/spot.types.ts:33-39 | every service has a non-empty label |
| SpotTypes.VehicleTypeLabel | src/types/spot.types.ts:41-48 | every vehicle type has a non-empty label |
| SpotTypes.GroundLabel | src/types/spot.types.ts:50-57 | every ground type has a non-empty label |
| SpotTypes.StatusLabel | src/types/spot.types.ts:59-64 | every status has a non-empty label |
| SpotTypes.LabelsDistinct | src/types/spot.types.ts:33-64 | within each label map, different values have different labels |
| SpotTypes.ValidLengthRange | src/types/spot.types.ts:68-73 | a length range is null or has both ends at least 0; min <= max is not asked |
| SpotTypes.ValidSpot | src/types/spot.types.ts:77-97 | a spot record has an integer number, three valid length ranges and a price of at least 0 |
| SpotTypes.ValidSpotForm | src/types/spot.types.ts:101-118 | a spot form has an integer number of at least 1, a sun exposure that is null or in 0..100, three valid length ranges and a price of at least 0 |
| SpotTypes.ValidFormGivesValidSpot | src/types/spot.types.ts:77-118 | a spot carrying the number, ranges and price of a valid form passes the record schema |
| SpotTypes.SpotSchemaWeakerThanForm | src/types/spot.types.ts:68-118 | the record schema accepts a spot numbered 0 with a sun exposure of 150, which the form rejects; both schemas allow a range whose min exceeds its max |
| ReservationTypes.ParseReservationStatus | src/types/reservation.types.ts:3 | a code is accepted iff it is one of the six statuses, and then gives the status with that code |
| ReservationTypes.ReservationStatusesComplete | src/types/reservation.types.ts:3 | a status is one of six distinct values, and its code parses back to it |
| ReservationTypes.ValidReservation | src/types/reservation.types.ts:15-28 | a reservation record has integer adult and child counts, and nothing more is checked |
| ReservationTypes.ValidReservationForm | src/types/reservation.types.ts:32-42 | a reservation form has non-empty spot, customer and dates, an integer adult count of at least 1, an integer child count of at least 0, and an arrival before the departure in string order |
| ReservationTypes.SameDayStayRejected | src/types/reservation.types.ts:39-42 | a form whose departure equals its arrival is invalid |
| ReservationTypes.SwappedDatesRejected | src/types/reservation.types.ts:39-42 | swapping the dates of a valid form makes it invalid |
| ReservationTypes.LaterDepartureStaysValid | src/types/reservation.types.ts:32-42 | moving a valid form's departure later keeps it valid |
| ReservationTypes.ValidFormGivesValidReservation | src/types/reservation.types.ts:15-42 | a reservation with the counts of a valid form passes the record schema |
| ReservationTypes.ReservationSchemaWeakerThanForm | src/types/reservation.types.ts:15-42 | the record schema accepts 0 adults, -1 children and a departure before the arrival, all of which the form rejects |
| ReservationTypes.IsoStringOrderIsCalendarOrder | src/types/reservation.types.ts:39 | on YYYY-MM-DD texts, the string order of the refinement is calendar order |
| ReservationTypes.IsoFormValidity | src/types/reservation.types.ts:32-42 | a form with ISO dates is valid iff its ids are non-empty, adults is an integer >= 1, children an integer >= 0, and the departure is a later calendar date |
| FrenchDate.RemovePeriods | src/utils/date.ts:60 | the result holds no period and is no longer than the input |
| FrenchDate.RemovePeriodsIdempotent | src/utils/date.ts:60 | stripping periods twice is stripping once |
| FrenchDate.Normalize | src/utils/date.ts:60 | the normal form is lower case, holds no period and is no longer than the input |
| FrenchDate.NormalizeClean | src/utils/date.ts:60 | a lower-case text without periods or surrounding whitespace is its own normal form |
| FrenchDate.RunLength | src/utils/date.ts:61 | the scanned run is the longest prefix in its character class |
| FrenchDate.MatchDate | src/utils/date.ts:61-62 | a match has a day of 1-2 digits and, if present, a year of exactly 4 digits |
| FrenchDate.MatchDateComplete | src/utils/date.ts:61 | every text of the form digits, whitespace, letters, optional whitespace and 4 digits is matched, with those groups |
| FrenchDate.MatchDateSound | src/utils/date.ts:61 | every match comes from such a decomposition of the text, with the reported groups |
| FrenchDate.MatchFrenchDate | src/utils/date.ts:60-70 | a date handed on has day 1..31 and a month index 0..11 |
| FrenchDate.DateOfMatch | src/utils/date.ts:64-70 | the lookup and the day check give a day in 1..31 and a month index below 12 |
| FrenchDate.MonthNamesInRange | src/utils/date.ts:40-53 | every month index in the table lies in 0..11 |
| FrenchDate.MonthWordMatchable | src/utils/date.ts:40-53 | every word of the table is non-empty, lower case and made of the pattern's letters, so each one can be matched |
| FrenchDate.FullNamesInTable | src/utils/date.ts:40-53 | each of the twelve full French month names is in the table with its own index |
| FrenchDate.MonthWordAbbreviates | src/utils/date.ts:40-53 | every word of the table, accents aside, begins the full name of the month it maps to |
| FrenchDate.FormatIso | src/utils/date.ts:75 | the formatted date is at least ten characters long, whatever the date |
| FrenchDate.ParseFrenchDate | src/utils/date.ts:59-76 | a text gives a date iff the normalisation, the pattern, the month lookup and the day check all succeed; for a year below 10000 the result is the four-digit year, "-", the two-digit month index + 1, "-", the two-digit day |
| FrenchDate.FormatIsoLayout | src/utils/date.ts:75 | the output is ten characters: four-digit year, "-", two-digit month index + 1, "-", two-digit day |
| FrenchDate.DateTextSplits | src/utils/date.ts:61 | the pattern splits "day word [year]" back into its day, word and year |
| FrenchDate.DateOfKnownMonth | src/utils/date.ts:64-70 | groups with a table word and a day in 1..31 give that day, the word's month index and the written year, or the current year when none is written |
| FrenchDate.MatchWithYear | src/utils/date.ts:60-70 | "day word yyyy", with a day 1..31 and a table word, hands that year, the word's month and that day to the date library |
| FrenchDate.ParseWithYear | src/utils/date.ts:59-75 | such a text parses to the ISO text of that year, month and day as built before the date library's step; the explicit year is used as written |
| FrenchDate.FirstOfJanuary | src/utils/date.ts:55-76 | "1 janvier 2025" parses to "2025-01-01", whatever the current year |
| FrenchDate.MatchWithoutYear | src/utils/date.ts:60-70 | "day word" hands the current year, the month and the day to the date library when the day is in 1..31, and gives nothing when it is in 32..99 |
| FrenchDate.ParseWithoutYear | src/utils/date.ts:59-75 | "day word" parses to the ISO text of that day and month in the current year, as built before the date library's step |
| FrenchDate.DateOfBadDay | src/utils/date.ts:70 | a day outside 1..31 gives no date |
| FrenchDate.DateOfUnknownMonth | src/utils/date.ts:68-69 | a month word outside the table gives no date |
| FrenchDate.DayOutOfRangeRejected | src/utils/date.ts:70 | a day of 32..99 is refused, even with a table word |
| FrenchDate.DayZeroRejected | src/utils/date.ts:70 | a day written "0" or "00" is refused, even with a table word |
| FrenchDate.UnknownMonthRejected | src/utils/date.ts:68-69 | a well-formed "day word" whose word is not in the table is refused |
| FrenchDate.SameNormalFormSameDate | src/utils/date.ts:60 | two texts with the same normal form parse alike |
| FrenchDate.ParseIgnoresSurroundingWhitespace | src/utils/date.ts:60 | whitespace around the text does not change the result |
| FrenchDate.ParseIgnoresCase | src/utils/date.ts:60 | a lower-cased text parses like the original |
| FrenchDate.ParseIgnoresPeriods | src/utils/date.ts:60 | for a text that neither starts nor ends with whitespace or a period, removing its periods does not change the result |
| FrenchDate.NoMatchNoDate | src/utils/date.ts:62 | a normalised text the pattern does not match is not a date |
| FrenchDate.BlankRejected | src/utils/date.ts:60-62 | the empty text and texts of whitespace only are not dates |
| FrenchDate.DigitsOnlyRejected | src/utils/date.ts:61-62 | a run of digits alone, such as "11", is not a date |
| FrenchDate.NoLeadingDigitRejected | src/utils/date.ts:61-62 | a text whose first character after the surrounding whitespace is neither a digit nor a period, such as "Jean Dupont", is not a date |
| FiscalStore.PeriodOfIndex | src/stores/fiscal.store.ts:10-11 | every month count stands for exactly one valid (year, month 0..11) period |
| FiscalStore.IndexDeterminesPeriod | src/stores/fiscal.store.ts:10-11 | two valid periods with the same month count are equal |
| FiscalStore.PrevPeriod | src/stores/fiscal.store.ts:25-31 | the step back keeps the month in 0..11 and lowers year x 12 + month by exactly 1 |
| FiscalStore.NextPeriod | src/stores/fiscal.store.ts:35-41 | the step forward keeps the month in 0..11 and raises year x 12 + month by exactly 1 |
| FiscalStore.StepsAreCalendarNeighbours | src/stores/fiscal.store.ts:25-43 | the two steps reach the calendar month before and after |
| FiscalStore.StepsUndoEachOther | src/stores/fiscal.store.ts:25-43 | back then forward, or forward then back, restores the period |
| FiscalStore.Forward | src/stores/fiscal.store.ts:35-43 | n steps forward raise the month count by n and keep the period valid |
| FiscalStore.TwelveStepsIsAYear | src/stores/fiscal.store.ts:35-43 | twelve steps forward reach the same month of the next year |
| FiscalStore.FiscalNavigator.Valid | src/stores/fiscal.store.ts:10-11 | the navigator's month is a Date month index, 0..11 |
| FiscalStore.FiscalNavigator.constructor | src/stores/fiscal.store.ts:10-11 | the navigator starts at the given year and month 0..11 |
| FiscalStore.FiscalNavigator.PrevMonth | src/stores/fiscal.store.ts:25-33 | from January: December of the year before; otherwise the month before in the same year; always a valid state one month earlier |
| FiscalStore.FiscalNavigator.NextMonth | src/stores/fiscal.store.ts:35-43 | from December: January of the year after; otherwise the month after in the same year; always a valid state one month later |
| FiscalStore.BackAndForth | src/stores/fiscal.store.ts:25-43 | prevMonth then nextMonth leaves the navigator where it was |
| CustomersStore.MatchesQuery | src/stores/customers.store.ts:21-25 | the empty query matches every customer, since every text contains the empty text |
| CustomersStore.FilterByQuery | src/stores/customers.store.ts:19-26 | a customer is kept iff the query occurs in its lower-cased first name, last name or e-mail, or in its phone as typed; the result is an order-preserving sub-sequence |
| CustomersStore.SearchCustomers | src/stores/customers.store.ts:18-29 | a blank query keeps the whole list; otherwise the customers matching the lower-cased query, in their order |
| CustomersStore.FilterKeepsAllMatches | src/stores/customers.store.ts:20-26 | when every customer matches, the list comes back unchanged |
| CustomersStore.FilterIdempotent | src/stores/customers.store.ts:20-26 | filtering twice with the same query is filtering once |
| CustomersStore.FilterConcat | src/stores/customers.store.ts:20-26 | filtering two lists joined is joining their filtered lists |
| CustomersStore.PhoneComparedAsTyped | src/stores/customers.store.ts:19-25 | the query "Ext" does not find a phone reading "Ext", but does find a first name "Ext" |
| CustomersStore.QueryNotTrimmed | src/stores/customers.store.ts:18-19 | "ab" finds a customer named "ab"; " ab" does not |
| CustomersStore.QueryCaseIgnored | src/stores/customers.store.ts:19 | a query and its lower-cased form give the same result |
| CustomersStore.CustomersList.constructor | src/stores/customers.store.ts:7-10 | the store starts with no customers and an empty search query |
| CustomersStore.CustomersList.ApplySearch | src/stores/customers.store.ts:18-29 | the customer list becomes the search result for the current query; the query is untouched |
| Format.Substring0 | src/utils/format.ts:9 | substring(0, end) clamps end into 0..length and keeps that prefix |
| Format.TruncateId | src/utils/format.ts:8-10 | an id that fits comes back whole; the result starts with the first min(length, \|id\|) characters and adds at most three |
| Format.TruncateIdCases | src/utils/format.ts:9 | longer than the length: the first length characters (none if the length is negative) followed by "..."; otherwise the id itself |
| Format.TruncateIdIdempotent | src/utils/format.ts:8-10 | truncating a truncated id changes nothing |
| Format.DefaultLength | src/utils/format.ts:8 | by default, ids up to 8 characters come back whole, longer ones become their first 8 characters and "..." (11 characters) |
| SpotColumns.VehicleAbbreviation | src/features/spots/SpotColumns.ts:11-18 | each abbreviation has 1 to 3 characters, no comma and does not start with the dash |
| SpotColumns.AbbreviationsDistinct | src/features/spots/SpotColumns.ts:11-27 | the six abbreviations are pairwise distinct; the column order is MOTORISE, FIFTHWHEEL, ROULOTTE, CAMPEUR_PORTE, TENTE_ROULOTTE, TENTE, the same as the filters' order |
| SpotColumns.AcceptedTypes | src/features/spots/SpotColumns.ts:72-73 | the filtered list holds exactly the accepted types, in the column order |
| SpotColumns.Abbreviations | src/features/spots/SpotColumns.ts:74 | one abbreviation per type, position by position |
| SpotColumns.Join | src/features/spots/SpotColumns.ts:76 | joining no parts gives the empty text; otherwise the text starts with the first part |
| SpotColumns.VehicleSummary | src/features/spots/SpotColumns.ts:71-77 | the vehicle cell's text; what it shows is stated by DashWhenNothingAccepted and SummaryDeterminesAcceptedTypes |
| SpotColumns.DashWhenNothingAccepted | src/features/spots/SpotColumns.ts:71-77 | the vehicle cell is the dash exactly when the spot accepts no vehicle type |
| SpotColumns.JoinInjective | src/features/spots/SpotColumns.ts:76 | joining non-empty, comma-free parts with ", " loses nothing: equal texts come from equal lists |
| SpotColumns.SummaryDeterminesAcceptedTypes | src/features/spots/SpotColumns.ts:71-77 | two spots show the same vehicle cell iff they accept the same vehicle types |
| SpotColumns.DimensionsText | src/features/spots/SpotColumns.ts:60-66 | the dimensions cell is the dash iff the length is null or 0, whatever the width; with a length and a width it is "l x w", with a length alone "l pi" |
| SpotColumns.DimensionsDash | src/features/spots/SpotColumns.ts:63-64 | a width of null or 0 shows the same as no width |
| SpotColumns.WidthNeedsLength | src/features/spots/SpotColumns.ts:63-65 | a width without a length, or with a length of 0, shows the dash |
| Router.RouteNamed | src/app/router.ts:3-67 | a route found by name is in the table and carries that name |
| Router.Find | src/app/router.ts:3-67 | the route found is in the list and has the name; when none is found, no route in the list has it |
| Router.RowShape | src/app/router.ts:3-67 | each row of the table: a named row sits at its name's place and requires authentication iff it is not login or not-found; the unnamed row is the second, a redirect open to everyone |
| Router.RouteTableShape | src/app/router.ts:3-67 | no two routes share a name; a named route requires authentication iff it is not login or not-found; the one unnamed route is a redirect open to everyone |
| Router.EveryNameRouted | src/app/router.ts:3-67 | every route name has its route in the table, and "/" redirects to the dashboard's path |
| Router.Guard | src/app/router.ts:74-90 | redirect to login, carrying the target's full path, iff auth is required and there is no token; to the dashboard iff the target is login and there is a token; otherwise proceed |
| Router.GuardOnTable | src/app/router.ts:74-90 | on every route of the table, as the guard's target: a protected page proceeds with a token and goes to login without; login goes to the dashboard with a token and proceeds without; every other route proceeds |
| Router.LoginIsOpen | src/app/router.ts:4-9 | the login route is the first row, is found by its name and does not require authentication, so a visitor without a token can reach it |
| Router.RedirectsSettle | src/app/router.ts:74-90 | the page a redirect leads to is then let through with the same token state, so navigation cannot loop |
| JsBuiltins.IsWhitespace | src/stores/customers.store.ts:18 | the characters trim() removes and \s matches: the ECMAScript whitespace and line terminators |
| JsBuiltins.TrimStart | src/stores/customers.store.ts:18 | the result is the suffix of the input after its leading whitespace, and starts with a non-whitespace character if not empty |
| JsBuiltins.TrimEnd | src/stores/customers.store.ts:18 | the result is the prefix of the input before its trailing whitespace, and ends with a non-whitespace character if not empty |
| JsBuiltins.Trim | src/stores/customers.store.ts:18 | the trimmed text is empty iff the input is all whitespace, and otherwise starts and ends with non-whitespace |
| JsBuiltins.TrimAround | src/utils/date.ts:60 | trimming removes exactly the surrounding whitespace |
| JsBuiltins.ToLower | src/utils/date.ts:60 | lower-casing maps each character on its own and keeps the length |
| JsBuiltins.LowerChar | src/utils/date.ts:60 | a lower-cased character is never an ASCII or Latin-1 capital, and any other character is kept |
| JsBuiltins.TrimLowerCommute | src/utils/date.ts:60 | trimming and lower-casing commute |
| JsBuiltins.Contains | src/stores/customers.store.ts:22-25 | includes: the text occurs at some position of the other |
| JsBuiltins.LexLess | src/types/reservation.types.ts:39 | string a < b: the first differing character decides, and a proper prefix is smaller |
| JsBuiltins.LexLessIrreflexive | src/types/reservation.types.ts:39 | no string is less than itself |
| JsBuiltins.LexLessAsymmetric | src/types/reservation.types.ts:39 | two strings are never each less than the other |
| JsBuiltins.LexLessTransitive | src/types/reservation.types.ts:39 | string order is transitive |
| JsBuiltins.LexLessTotal | src/types/reservation.types.ts:39 | of two different strings, one is less than the other |
| JsBuiltins.ParseDigits | src/utils/date.ts:64 | parseInt of w decimal digits is below 10^w |
| JsBuiltins.DecimalText | src/utils/date.ts:64 | the decimal text of n is digits without a leading zero, and parseInt reads it back as n |
| JsBuiltins.ParseDigitsOf | src/utils/date.ts:64-66 | parseInt reads back a zero-padded number |
| JsBuiltins.DigitsOf | src/utils/date.ts:75 | the w-digit form of a number has exactly w digits |
| JsBuiltins.PadStart | src/utils/date.ts:75 | padStart to width w gives at least w characters: the fill character, then the text itself |
| JsBuiltins.PadDecimal | src/utils/date.ts:75 | padding the decimal text with zeros to width w gives the w-digit form |
| JsBuiltins.DigitsOfOrder | src/utils/date.ts:75 | on fixed-width digit texts, string order is numeric order |
| JsBuiltins.IsInteger | src/types/spot.types.ts:79 | Number.isInteger, which .int() applies: the number equals its floor |

## Left out

- The date library's construction and `isValid` check (src/utils/date.ts:72-73) are not modelled. The model formats the date the table lookup gives, as written. A day past the end of its month, such as "31 avril", is therefore emitted as written. The library may roll it over or refuse it instead.
- The dayjs wrappers at src/utils/date.ts:12-38, and the module-level locale setup, are display formatting done by the library.
- `JsBuiltins.ToLower` lowers only ASCII and Latin-1 capital letters. JavaScript's full Unicode case mapping is not modelled.
  - In the date parser this changes no result. Two other characters lower to text holding a letter of the pattern's class. The Kelvin sign lowers to "k", and no month word has a "k". U+0130 (capital I with a dot above) lowers to "i" followed by U+0307, and U+0307 is not in the class, so the pattern fails in the source just as it does in the model.
  - In the customer search, it can change which customers match a query written in other scripts.
- Strings are sequences of Unicode scalar values. JavaScript counts and orders strings in UTF-16 code units. The two differ only above U+FFFF, for `length` and for `<`.
- Numbers are exact reals. The IEEE-754 double artefacts of the source, and NaN and infinities, are not modelled.
- Format.TruncateId: the length is a whole number. A fractional length, which `substring` would truncate, is not modelled.
- A month word that names an inherited property of a JavaScript object, such as "constructor", is not in the table in the model. In the source it finds the property, and the date library then makes an invalid date, so the final result is null in both.
- Asynchronous I/O is not modelled. This covers:
  - the service calls that fetch the customers and the fiscal summary;
  - the `summary`, `isLoading` and `error` state;
  - `createCustomer`;
  - `goToToday` and the clock-based initial state of the fiscal store (src/stores/fiscal.store.ts:10-11, 45-49). They read the system clock, so the constructor takes the year and month as parameters instead.
- `FiscalStore.FiscalNavigator.PrevMonth` and `FiscalStore.FiscalNavigator.NextMonth` are modelled without the summary fetch they start.
- `formatCurrency` (src/utils/format.ts:1-6) is formatting done by the platform's `Intl` library.
- Rendering is not modelled: the vnodes, badges, CSS classes and the other columns of the spot table. The vehicle cell's text is modelled, not the span that wraps it.
- `SpotColumns.DimensionsText` takes JavaScript's number-to-text conversion as a function parameter. The model states the text of each cell in terms of that conversion, not how numbers print.
- The router's path matching, lazy components and history mode belong to vue-router and are not modelled. The guard sees a target's name, its `requiresAuth` meta and its full path.
- Redirect records are resolved by vue-router before the guard runs. The guard never receives the "/" record as its target; a visit to "/" reaches the guard as the dashboard route. `Router.GuardOnTable` still states the guard's decision for that record, which proceeds, but that decision is never taken in the source.
- The token read from localStorage becomes the `hasToken` input. It stands for the token being truthy, so an empty stored token counts as no token.
- The e-mail format check of the customer schema (src/types/customer.types.ts:7) is not modelled: it relies on the validation library's own pattern. The customer record leaves the e-mail unconstrained, and the search treats it as plain text.
