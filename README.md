# Travel booking core: hotel pricing, search, dashboard occupancy and audit trail

This project is a Dafny model of the business core of a Django travel-booking
platform. It covers six areas:

- **Hotel pricing engine** (`pricing.dfy`). It prices a stay: nights times rooms
  at the base price, then at most one discount code, then GST on the discounted
  amount. It checks a room type's availability night by night. It summarises a
  hotel's occupancy over an inclusive reporting window. The engine's own file,
  `hotels/pricing_service.py`, is not part of this model. Its behaviour is
  pinned down by the assertions of `hotels/tests.py`, and
  `pricing_scenarios.dfy` replays those tests over the fixture as lemmas.
- **Hotel search and listing** (`hotel_search.dfy`). This is the search API's
  filter-then-sort pipeline and the listing page's pipeline, over a list of
  hotel records. The filters are active status, city (by id or by
  case-insensitive name), star rating, the six amenity flags, and the price
  range on the lowest room price. The list is then sorted. The file also
  covers the booking form's total and the default of one room in the price and
  availability endpoints.
- **Admin dashboard** (`dashboard.dfy`). It models the staff/superuser access
  test and the bus occupancy loop over the first ten running schedules.
- **Audit trail** (`audit_signals.dfy`). The pre-save hook writes one "updated"
  entry per changed field of a booking. The post-save hook writes one "created"
  entry for a new booking. The audit table is a class whose entry list the
  hooks append to.
- **Audit helpers** (`audit_utils.dfy`). These are secret masking and the
  structured log payload.
- **Shared helpers**. `common.dfy` holds Option/Result, min and percentage.
  `text.dfy` holds Python's `int()` and `str()` on integers, ASCII case folding
  and code-point string order.

Money and percentages are exact reals, and dates are day numbers. Methods
appear only where the source mutates state or runs a loop: the occupancy loop
and the two audit hooks. Everything else is a function with lemmas about it.

## Model

| member | source | states |
|---|---|---|
| Pricing.FindDiscount | hotels/tests.py:242-258 | a code is found only if a discount with exactly that code exists, and is reported missing exactly when none has it |
| Pricing.DiscountValue | hotels/tests.py:195-240 | a percentage discount with a cap is the percentage of the subtotal but never more than the cap, and is one of the two; without a cap it is the percentage of the subtotal; a fixed discount is exactly its amount |
| Pricing.ResolveDiscount | hotels/tests.py:242-277 | an error is reported exactly for an unknown code (a below-minimum code is recorded with its reason and no error, see "## Left out"); a discount applies exactly when the code exists and the subtotal reaches its minimum booking amount, and then it is the found record's kind and that kind's value on the subtotal; otherwise the discount is 0 |
| Pricing.CalculateTotalPrice | hotels/tests.py:146-193 | a stay fails exactly when check-out is not after check-in or fewer than one room is asked for, with the date error first and the room-count error otherwise; on success nights, rooms and base price are echoed, subtotal = base × nights × rooms, the discount and its details are the resolution of the code on that subtotal, currency is INR, tax is the GST rate on the discounted subtotal and total = discounted subtotal + tax |
| Pricing.TaxOnDiscountedAmount | hotels/tests.py:279-295 | GST is computed on the subtotal after discount, so a positive discount at a positive rate lowers the tax below the tax on the gross subtotal |
| Pricing.TotalIsTaxedNetAmount | hotels/tests.py:297-329 | total = (subtotal − discount) × (1 + rate/100) |
| Pricing.PercentageDiscountIsCapped | hotels/tests.py:195-222 | an applied percentage code with a cap gives min(subtotal × percent/100, cap) |
| Pricing.FixedDiscountIsExact | hotels/tests.py:224-240 | an applied fixed code takes off exactly its amount |
| Pricing.EligibleCodeDiscount | hotels/tests.py:195-240 | a code the hotel offers once, on a subtotal reaching its minimum, is applied with the record's kind: min(subtotal × percent/100, cap) for a capped percentage, subtotal × percent/100 for an uncapped one, exactly the amount for a fixed discount |
| Pricing.InapplicableCodeChangesNothing | hotels/tests.py:242-277 | an unknown or below-minimum code prices the stay exactly like no code; in the model only the unknown code carries an error |
| Pricing.BelowMinimumGetsNoDiscount | hotels/tests.py:260-277 | an existing code on a subtotal under its minimum booking amount gives 0 discount; the model records the reason without an error |
| Pricing.DiscountNeverRaisesTotal | hotels/tests.py:195-329 | with non-negative discount values, prices and rate, any code yields a total no higher than no code |
| Pricing.SubtotalSplitsAtNight | hotels/tests.py:146-193 | the subtotal is additive over a stay split at any intermediate night |
| Pricing.MinAvailable | hotels/tests.py:339-372 | the fewest free rooms over the nights is at most each night's count and equals one of them |
| Pricing.CheckAvailability | hotels/tests.py:339-372 | fails exactly on an empty or reversed stay; reports the fewest free rooms over the nights and the rooms asked for; available exactly when that minimum covers the request, i.e. when every night of the stay has at least as many free rooms as asked |
| Pricing.ShortNightBlocksStay | hotels/tests.py:356-372 | a single night with too few free rooms makes the whole stay unavailable |
| Pricing.BookedOn | hotels/tests.py:534-548 | booked rooms of a type on a date plus its free rooms make up its room count (nothing booked when more are free), never more than the room count |
| Pricing.BookedUnitsWithinUnits | hotels/tests.py:534-548 | booked rooms on a date never exceed all rooms of the hotel |
| Pricing.BookedWithinTotal | hotels/tests.py:534-548 | booked room-nights never exceed offered room-nights over any window |
| Pricing.TotalRoomNightsCount | hotels/tests.py:534-548 | offered room-nights = days × rooms |
| Pricing.OccupancySummaryOf | hotels/tests.py:534-548 | fails exactly on a reversed window; carries the hotel id and the window; total room-nights = (end − start + 1) × rooms; booked room-nights are the per-date booked rooms summed over the window, never above the total; occupancy × total = 100 × booked, so it is the booked share in percent, between 0 and 100, and 0 when nothing is offered |
| PricingScenarios.BasicPrice | hotels/tests.py:146-175 | 3 deluxe nights: subtotal 45000, GST 8100, total 53100, INR |
| PricingScenarios.MultipleRooms | hotels/tests.py:177-193 | 2 nights × 3 rooms: subtotal 90000 |
| PricingScenarios.PercentageDiscountCapped | hotels/tests.py:195-222 | SAVE20 on 250000 is capped at 10000; GST 43200, total 283200 |
| PricingScenarios.FixedDiscount | hotels/tests.py:224-240 | OFF5K takes off 5000 |
| PricingScenarios.InvalidCode | hotels/tests.py:242-258 | an unknown code gives no discount and an error entry |
| PricingScenarios.MinimumBookingAmount | hotels/tests.py:260-277 | SAVE20 on a 15000 subtotal gives no discount |
| PricingScenarios.AllParameters | hotels/tests.py:297-329 | 4 suite nights × 2 rooms with OFF5K: 395000 after discount, GST 71100, total 466100 |
| PricingScenarios.InvalidRequests | hotels/tests.py:562-594 | same-day check-out and a negative room count are rejected |
| PricingScenarios.DeluxeAvailable | hotels/tests.py:339-354 | 2 deluxe rooms for 3 weekday nights are available, with 8 free |
| PricingScenarios.SuiteUnavailable | hotels/tests.py:356-372 | 5 suites when 2 exist are unavailable, with 2 free |
| PricingScenarios.FixtureOccupancy | hotels/tests.py:534-548 | on the fixture's six-day window the summary carries the hotel id and an occupancy within [0, 100]; the model's own figures are 72 room-nights offered and 15 booked, which the tests do not assert |
| HotelSearch.LowestPriceIsLowest | hotels/views.py:102-108 | the lowest room price is at most every room's base price and is one of them |
| HotelSearch.MinRoomPriceIsLowest | hotels/views.py:102-108 | a hotel's minimum room price is its lowest base price, or 0 without room types |
| HotelSearch.Keep | hotels/views.py:69-112 | a filter step keeps each hotel meeting the condition exactly as often as before and drops every other |
| HotelSearch.CityCriterion | hotels/views.py:75-80 | a hotel matches the city parameter exactly when its city id is the parameter's integer value, or, for a parameter that is not an integer, when its city name matches ignoring case |
| HotelSearch.CityIdParameter | hotels/tests.py:394-400 | a city id written in decimal selects exactly the hotels of that city |
| HotelSearch.CityNameParameter | hotels/tests.py:402-408 | a city parameter that does not read as an integer selects exactly the hotels whose city name matches ignoring case |
| HotelSearch.InOrderTotal | hotels/views.py:115-129 | any two hotels are comparable under every sort order |
| HotelSearch.InOrderTransitive | hotels/views.py:115-129 | every sort order is transitive |
| HotelSearch.Insert | hotels/views.py:115-129 | inserting adds exactly the one hotel |
| HotelSearch.SortedCons | hotels/views.py:115-129 | a hotel preceding a whole sorted list can head it |
| HotelSearch.InsertSorted | hotels/views.py:115-129 | insertion keeps a list sorted |
| HotelSearch.SortHotels | hotels/views.py:115-129 | sorting is a permutation |
| HotelSearch.SortHotelsSorted | hotels/tests.py:428-440 | the sorted list is ordered by the chosen key |
| HotelSearch.SearchOrder | hotels/views.py:114-129 | each of price_asc, price_desc, rating_asc and rating_desc picks its own order and only that value does; no `sort_by`, or any other value, orders by name |
| HotelSearch.ListOrder | hotels/views.py:302-323 | each of price_asc, price_desc, rating_asc and rating_desc picks its own order and only that value does; no `sort`, or any other value, keeps the stored order |
| HotelSearch.ActiveInCity | hotels/views.py:70-80 | exactly the active hotels of the requested city remain, with their multiplicities |
| HotelSearch.WithStars | hotels/views.py:83-85 | a non-integer star parameter is an error; otherwise exactly the hotels with that rating remain |
| HotelSearch.AmenityOrderComplete | hotels/views.py:88-99 | all six amenity flags are checked |
| HotelSearch.WithAmenities | hotels/views.py:88-99 | after the listed flags, exactly the hotels offering every amenity whose flag is `true` remain |
| HotelSearch.AllAmenities | hotels/views.py:88-99 | the six amenity filters keep exactly the hotels offering every requested amenity |
| HotelSearch.WithinPrice | hotels/views.py:102-112 | exactly the hotels whose lowest room price is inside the given bounds remain |
| HotelSearch.SearchHotels | hotels/views.py:69-131 | a bad star rating fails, and nothing else does; every result is an input hotel matching all filters; except for `price_desc`, the result holds exactly the matching hotels with their multiplicities, sorted by the requested order (name by default) |
| HotelSearch.ListHotels | hotels/views.py:280-323 | a bad star rating fails, and nothing else does; the result holds exactly the active hotels matching city, price range and rating, sorted when `sort` names an order |
| HotelSearch.RoomsRequested | hotels/views.py:170 | an omitted room count is 1 |
| HotelSearch.QuotePrice | hotels/views.py:158-177 | the price endpoint rejects exactly a non-positive stay or a given room count below one; a quote echoes the nights and the room count, one when omitted |
| HotelSearch.QuoteAvailability | hotels/views.py:204-217 | the availability endpoint rejects exactly a non-positive stay; an answer is for the given room count, one when omitted, and is positive exactly when every night has that many rooms free |
| HotelSearch.OmittedRoomCountIsOne | hotels/views.py:166-172 | a price or availability request without a room count is answered as for one room (also hotels/views.py:216) |
| HotelSearch.BookingTotal | hotels/views.py:386-389 | the booking form's total as written: 0 for no nights or no rooms, at least one night's price for a valid stay, and negative for a check-out before check-in with at least one room at a positive price |
| HotelSearch.BookingTotalIsSubtotal | hotels/views.py:386-389 | for a valid stay the booking form charges the engine's subtotal: no discount, no tax |
| HotelSearch.BookingTotalAcceptsReversedDates | hotels/views.py:386-389 | a check-out before check-in yields a negative booking total where the pricing engine rejects the dates |
| HotelSearch.CheckedBookingTotal | hotels/views.py:386-389 | the corrected total: defined exactly for at least one night and one room; otherwise the engine's date error for a non-positive stay and its room-count error for a valid stay with fewer than one room; at least one night's base price for non-negative prices |
| Dashboard.AdminAccess | dashboard/views.py:12-14 | staff or superuser alone opens the dashboard; neither refuses |
| Dashboard.IsAdmin | dashboard/views.py:12-14 | only the user who is neither staff nor superuser is refused |
| Dashboard.RunningSchedules | dashboard/views.py:76 | exactly the active, non-cancelled schedules remain |
| Dashboard.RunningConcat | dashboard/views.py:76 | filtering keeps the stored order: the running schedules of a concatenation are those of each part, in turn |
| Dashboard.Listed | dashboard/views.py:76 | the first ten running schedules in stored order, or all of them when fewer |
| Dashboard.ListedFromPrefix | dashboard/views.py:76 | once a prefix of the stored schedules holds ten running ones, the table lists exactly the first ten of them, whatever follows |
| Dashboard.RowFor | dashboard/views.py:77-86 | a row echoes route, date, booked and free seats; for a bus with seats, occupancy × seats = 100 × booked, so it is the booked share in percent; 0 without seats, between 0 and 100 |
| Dashboard.SumBookedWithinCapacity | dashboard/views.py:88-89 | summed booked seats never exceed summed seats |
| Dashboard.OverallOccupancy | dashboard/views.py:91 | with seats listed, overall × seats = 100 × booked seats; 0 without seats; between 0 and 100 |
| Dashboard.OccupancyTable | dashboard/views.py:76-91 | one row per schedule in order; the totals are the sums of seats and booked seats, booked never above total; the overall figure is OverallOccupancy of the schedules, the booked share of all seats in percent |
| Dashboard.BusOccupancy | dashboard/views.py:72-91 | at most ten rows, one per listed running schedule in order; totals are the sums over those schedules, booked never above total; the overall figure is OverallOccupancy of the listed schedules, so overall × seats = 100 × booked seats |
| AuditSignals.Truncate | audit_logs/signals.py:42-43 | a stored value is the rendering itself when at most the limit long, and exactly its first `limit` characters otherwise |
| AuditSignals.ObjectPk | audit_logs/signals.py:39 | the object key is the booking id when the record has one, else the primary key, rendered by `str()`: an integer key reads back as that integer, with no sign or leading zero when non-negative and a minus when negative; text is kept; None, True and False are spelled out (also audit_logs/signals.py:55) |
| AuditSignals.ChangeEntries | audit_logs/signals.py:7-44 | the pre-save hook records at most one entry per field, each an "updated" entry with no actor under the booking's key for a listed field |
| AuditSignals.CreateEntries | audit_logs/signals.py:47-58 | the post-save hook records exactly one "created" entry for a booking's first save, under its key with the system note, and nothing otherwise |
| AuditSignals.DiffEntriesDescribeChanges | audit_logs/signals.py:29-44 | every entry is an "updated" entry for a listed field present on both records with differing values, with the truncated renderings |
| AuditSignals.ChangedFieldsAreRecorded | audit_logs/signals.py:29-44 | every listed field whose value changed gets its entry |
| AuditSignals.EntryForFieldIffChanged | audit_logs/signals.py:29-44 | a field is named by an entry exactly when it is listed and changed |
| AuditSignals.DiffCountBounded | audit_logs/signals.py:29-44 | there are never more entries than fields |
| AuditSignals.FieldDiffsConcat | audit_logs/signals.py:29-44 | the entries of a field list are those of its parts in order, so each field's entry stands where the field is declared |
| AuditSignals.FieldDiffsOfOne | audit_logs/signals.py:30-44 | a single field contributes its one update entry when it changed and nothing otherwise |
| AuditSignals.DiffCountIsChangedCount | audit_logs/signals.py:29-44 | for distinct fields the number of entries is exactly the number of changed fields |
| AuditSignals.ValuesAreTruncatedRenderings | audit_logs/signals.py:42-43 | old and new values are at most 2000 characters and are exactly the first 2000 characters of the full rendering, or all of it when shorter |
| AuditSignals.NoChangeNoDiffs | audit_logs/signals.py:35 | with no listed field changed nothing is recorded |
| AuditSignals.PyEqualsReflexive | audit_logs/signals.py:35 | a value never differs from itself |
| AuditSignals.UnchangedSaveRecordsNothing | audit_logs/signals.py:29-44 | re-saving a booking unchanged records nothing |
| AuditSignals.OnlyStoredBookingsAreAudited | audit_logs/signals.py:16-26 | other models, records without a key and records not found in storage leave no entries; other models never get a "created" entry (also audit_logs/signals.py:49-50) |
| AuditSignals.CreationRecordedOnce | audit_logs/signals.py:47-58 | a created booking gets exactly one "created" entry, and none when not newly created; its update entries carry the same object key (also audit_logs/signals.py:39) |
| AuditSignals.AuditLog.constructor | audit_logs/signals.py:36 | the audit table starts empty |
| AuditSignals.AuditLog.CaptureChanges | audit_logs/signals.py:7-44 | the table grows by exactly the change entries of the save, in field order; with FieldDiffsConcat, FieldDiffsOfOne and DiffCountIsChangedCount, that is one entry per changed field in declaration order |
| AuditSignals.AuditLog.CaptureCreate | audit_logs/signals.py:47-58 | the table grows by exactly the creation entry, if any |
| AuditUtils.Stars | audit_logs/utils.py:12 | n stars, none for n ≤ 0 |
| AuditUtils.PySliceFrom | audit_logs/utils.py:12 | Python's `s[start:]` for negative, zero and out-of-range starts |
| AuditUtils.MaskSecretAsWritten | audit_logs/utils.py:6-12 | the mask as written keeps the secret's length for keep ≥ 1, and is longer than a non-empty secret for keep ≤ 0 |
| AuditUtils.ZeroKeepRevealsSecret | audit_logs/utils.py:6-12 | masking "abcd" with keep 0 gives "****abcd" |
| AuditUtils.ZeroKeepRevealsEverySecret | audit_logs/utils.py:6-12 | with keep 0 every non-empty secret is doubled in length and shown in full |
| AuditUtils.MaskSecret | audit_logs/utils.py:6-12 | the corrected mask keeps the length, stars all but the last `keep` characters and shows those unchanged; keep ≤ 0 or a short secret gives all stars |
| AuditUtils.MaskAgreesForPositiveKeep | audit_logs/utils.py:6-12 | for keep ≥ 1 the corrected mask is exactly the written one |
| AuditUtils.MaskIdempotent | audit_logs/utils.py:6-12 | masking twice equals masking once |
| AuditUtils.StructuredPayload | audit_logs/utils.py:15-22 | the payload has exactly the keys module, action, actor and the extras; actor is the username or null; every extra is carried unchanged |
| AuditUtils.MaskedFieldInPayload | audit_logs/utils.py:6-22 | a masked secret passed as an extra appears with the secret's length, all stars when short |
| Text.ParseInt | hotels/views.py:76-80 | `int()` accepts exactly an optional sign followed by one or more digits, and gives their decimal value, negated after a minus |
| Text.ParseIntOfDecimal | hotels/views.py:76-80 | `int(str(i)) == i` for every integer |
| Text.DigitsOfNat | hotels/views.py:76-80 | the decimal text of a natural number reads back as that number |
| Text.NoLeadingZero | audit_logs/signals.py:39 | `str(n)` of a natural number has no leading zero |
| Text.LeadingZeroIgnored | hotels/views.py:76-80 | a leading zero does not change the value of a digit string |
| Text.ZeroPaddedId | hotels/views.py:76-80 | `int("007") == 7` |
| Text.Lower | hotels/views.py:80 | case folding keeps the length and folds each character |
| Text.LexLeTotal | hotels/views.py:129 | name order is total |
| Text.LexLeTransitive | hotels/views.py:129 | name order is transitive |
| Common.PercentOfBounds | dashboard/views.py:78 | a part of a non-negative whole is between 0 and 100 percent, 0 of an empty whole |
| Common.PercentOf | dashboard/views.py:78 | for a positive whole, percentage × whole = 100 × part; 0 otherwise (also dashboard/views.py:91) |

## Left out

- HTTP, serializers, ORM plumbing, pagination, templates and redirects are not modelled. Look-up failures become missing map keys or error results.
- The room-type look-up and its 404 in the price and availability endpoints are not modelled. The endpoints are modelled from the found room type on.
- `hotels/pricing_service.py` is not part of this model. The engine is stated from the test assertions and the fixture.
- Per-date rate overrides are not modelled. The fixture sets per-date prices (hotels/tests.py:98, 106), but every tested stay starts today and lasts at most five nights, so it only reaches dates whose per-date price equals the base price. The model charges the base price every night.
- A discount code's `is_active` flag and validity window are not modelled. The hotel's discount list is the set of codes valid now.
- Pricing.ResolveDiscount: the tests assert only a zero discount for a code below its minimum booking amount (hotels/tests.py:260-277). Whether the engine also puts an `error` entry in `discount_details` for it is not known. The model records the reason as `BelowMinimum` without an error, and only an unknown code carries one.
- Pricing.DiscountValue: an unset `max_discount` is an absent cap. Whether a cap of 0 also counts as unset is not modelled, because the engine's own code is not part of this model.
- Pricing.DiscountValue: a fixed discount is not clamped to the subtotal. The tests only show a fixed discount below the subtotal, and the model does not invent a clamp.
- Pricing.BookedOn: booked rooms are taken to be the room count minus the free rooms of the date's record. The tests assert only the hotel id and the bounds of the summary, so this reading is an assumption.
- PricingScenarios: the pricing tests call the engine without a room count; the scenarios pass one room, reading the engine's default as 1, as the price endpoint does.
- Pricing.AvailableOn: a date without an availability record counts every room of the type as free. The tests always have records.
- Rounding is left out: money, `round(occupancy, 1)` and Decimal quantisation are exact reals.
- HotelSearch.SearchHotels: `price_desc` orders over a join with room types, which can repeat a hotel once per room type. For that order the model states only that every result is a matching input hotel, not the multiplicities or the order.
- The price parameters arrive already parsed as optional reals. Decimal parsing and its errors are not modelled.
- Python's `int()` is modelled without surrounding whitespace, digit-group underscores and non-ASCII decimal digits (`int("٣") == 3` in Python).
- Database collation is not modelled: names order by code point. `iexact` folds ASCII letters only.
- Date parsing in the booking form, and the booking and hotel-booking rows it creates, are not modelled. Only the total is.
- `mask_secret` on non-string values is not modelled. Values are strings.
- Field values of other types are not modelled. Dates, decimals and foreign keys would need their own `str()` and `==`, so audit values are None, booleans, integers and text.
- Logging output is left out. `structured_log` is modelled up to the payload it passes to the logger.
- The other dashboard statistics (booking counts and revenue) are not modelled.
- Concurrency between a save and its audit hooks is not modelled. Neither are signal wiring and database transactions.

## Findings

| source | as written | input that shows it | evidently intended | confidence | as-written member | corrected member |
|---|---|---|---|---|---|---|
| audit_logs/utils.py:12 | `s[-keep:]` with `keep = 0` is the whole string | `mask_secret("abcd", keep=0)` | `"****"`, nothing shown | not executed | AuditUtils.ZeroKeepRevealsSecret | AuditUtils.MaskSecret |
| hotels/views.py:386-389 | the booking total has no check on the nights or the room count | check-in day 5, check-out day 3, one 15000 room | the dates rejected, as the pricing endpoint does | not executed | HotelSearch.BookingTotalAcceptsReversedDates | HotelSearch.CheckedBookingTotal |
