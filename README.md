# Train ticket estimator, modelled in Dafny

A model of `TrainTicketEstimator` (`src/train-estimator.ts`), the engine that
prices a train trip. It takes a trip (from, to, departure instant) and a list
of passengers (age, discount cards, optional last name). It validates the
request and asks the price service for the base fare. It then adds up a price
per passenger: fixed prices for infants, young children and employees, and
otherwise an age tier adjusted by how far ahead the departure is. Finally it
applies the group discounts (family, couple, half-couple) to the total.

Modules, one per stage of `estimate`:

- `Trip` (trip.dfy): passengers, discount cards, trip details, the two errors
  (`InvalidTripInput(message)` and `ApiException`) and their messages.
- `Validation` (validation.dfy): `validateTripRequest`, with JavaScript's
  `trim` written out.
- `FareLookup` (fare_lookup.dfy): how the price service's answer becomes the
  base fare or `ApiException`.
- `Pricing` (pricing.dfy): `applyAgePriceModifier`, `applyDatePriceModifier`,
  `hasFixedPrice` and the loop of `definePriceDependingAgeAndDate`.
- `Discounts` (discounts.dfy): `applyDiscountCards`, with the family loop.
- `Estimator` (estimator.dfy): `estimate`, and the properties of a whole estimate.
- `Calendar` (calendar.dfy): the clock and the bound used by the date check.
- `Sums` (sums.dfy): summing a price over a list, in any order.
- `Scenarios` (scenarios.dfy): concrete trips from the test suite, worked out.

Prices, fares and ages are `real`. Instants are `int` milliseconds. The loops
of the source are `method`s. Each method is proved equal to a function
(`TotalFare`, `FamilyDelta`, `CoupleAdjustment`, `DateModifier`, `Quote`), and
the lemmas are stated about those functions.

Behaviour of the code worth knowing, which the model keeps:

- Empty passenger list. `validateTripRequest` returns 0 for it, but `estimate`
  ignores that value. So the checks are skipped, the price service is still
  asked, and the estimate is `ApiException` when the lookup fails and 0
  otherwise (`Estimator.NoPassengers`).
- Rise window. The code moves the date object that already stands at now + 30
  days back by 25 days, so the lower bound of the rise window is now + 5 days,
  not now − 25 days. So "add the whole fare" applies to departures more than 6
  hours and at most 5 days ahead (`Pricing.FallbackWindow`). The tests at
  `src/train-estimator.spec.ts:174-205` expect exactly this.
- Lookup result. A missing price, a price of 0 and a price of −1 all raise
  `ApiException`. Any other number, negative ones included, is the base fare.
- Family test. The family tests at `src/train-estimator.spec.ts:287-356` are
  not awaited. The one at lines 296-306 expects 71, but the code gives
  89 − 6 − 6 − 6 − 2.7 = 68.3 (`Scenarios.TwoFamilies`). The others agree
  with the code.

A consequence of the code proved here: the couple and half-couple discounts
are taken from the base fare even for passengers who pay a fixed price. Two
employees with a Couple card and a base fare of 20 are quoted −6
(`Scenarios.EmployeeCouple`). When anyone holds a Family card and the fare is
not negative, the quote is never negative (`Estimator.FamilyQuoteNonNegative`).

## Model

| member | source | states |
|---|---|---|
| `Validation.TrimStartSpec` | src/train-estimator.ts:37 | the result is a suffix of the input, everything dropped is whitespace or a line terminator, and the result does not start with one |
| `Validation.TrimEndSpec` | src/train-estimator.ts:37 | the result is a prefix of the input, everything dropped is whitespace or a line terminator, and the result does not end with one |
| `Validation.BlankIffAllTrimmable` | src/train-estimator.ts:37-43 | a city name is rejected exactly when it consists only of characters `trim` removes (the empty name included) |
| `Validation.NotBlank` | src/train-estimator.ts:37-43 | a name whose first character `trim` keeps passes the city check |
| `Validation.Trim` | src/train-estimator.ts:37 | `trim` never lengthens a name, and what it leaves neither starts nor ends with whitespace or a line terminator |
| `Validation.Validate` | src/train-estimator.ts:28-48 | an empty passenger list always passes; every failure is an `InvalidTripInput` carrying one of the four messages "Age is invalid", "Start city is invalid", "Destination city is invalid", "Date is invalid" |
| `Validation.ValidateOutcome` | src/train-estimator.ts:28-47 | an empty passenger list passes every check; otherwise the error is the first failing check in the order age (any age below 0), start city, destination city, date before the start of today, and the request passes exactly when none fails |
| `Validation.ValidatePermutation` | src/train-estimator.ts:33 | reordering the passengers does not change the outcome of validation |
| `FareLookup.SncfPrice` | src/train-estimator.ts:51-57 | the lookup succeeds exactly when a price is present and is neither 0 nor −1; on success the base fare is that price unchanged, on failure the error is `ApiException` |
| `Pricing.CeilDays` | src/train-estimator.ts:75-76 | the result is the number of started days: (r − 1) days < ms ≤ r days |
| `Pricing.ApplyDatePriceModifier` | src/train-estimator.ts:60-90 | the date moved forward 30 days and then back 25 gives the bounds now + 30 days and now + 5 days, so the result is the price plus `DateModifier`: −20% of the fare at ≥ 30 days or ≤ 6 hours ahead, (20 − started days) × 2% of the fare beyond 5 days, the whole fare otherwise |
| `Pricing.DateModifier` | src/train-estimator.ts:60-90 | −20% of the fare at 30 days or more or at most 6 hours ahead; the whole fare more than 6 hours and at most 5 days ahead; in between, (20 − started days until departure) × 2% of the fare, the days counted from now to the departure |
| `Pricing.HasFixedPrice` | src/train-estimator.ts:112-114 | every passenger priced by age and date is at least 4 and holds no TrainStroke card |
| `Pricing.FixedPrice` | src/train-estimator.ts:120-134 | a fixed price is 0, 1 or 9, and it is 0 exactly for a passenger under 1 |
| `Pricing.RiseWindowBounds` | src/train-estimator.ts:74-86 | in the rise window between 6 and 30 days have started, so the change lies between −20% and +28% of the fare |
| `Pricing.DateModifierBounds` | src/train-estimator.ts:67-89 | for a non-negative fare the date changes a price by between −20% and +100% of the fare |
| `Pricing.FallbackWindow` | src/train-estimator.ts:63-88 | for a positive fare the whole fare is added exactly for departures more than 6 hours and at most 5 days ahead |
| `Pricing.AgePrice` | src/train-estimator.ts:92-110 | 60% of the fare up to 17, 120% above 17 and below 70, from 70 on 80% or 60% with a Senior card; for a non-negative fare always between 60% and 120% |
| `Pricing.PassengerFare` | src/train-estimator.ts:120-140 | one passenger's contribution: a fixed-price passenger adds 0, 1 or 9, and a passenger under 1 adds nothing; otherwise the age price plus the date change (bounds in `Pricing.PassengerFareBounds`, fixed prices in `Pricing.FixedPriceIgnoresFareAndDate`) |
| `Pricing.FixedPriceIgnoresFareAndDate` | src/train-estimator.ts:112-135 | a fixed-price passenger's price depends on neither fare nor dates: 0 under 1 year, else 1 for an employee, else 9 from 1 to under 4 |
| `Pricing.PassengerFareBounds` | src/train-estimator.ts:116-141 | for a non-negative fare no passenger's price is negative, and one without a fixed price pays between 40% and 220% of the fare |
| `Pricing.TotalFare` | src/train-estimator.ts:116-144 | the passengers' prices summed: a group made only of infants under 1 pays nothing (order-independence in `Pricing.TotalFarePermutation`, the loop in `Pricing.DefinePriceDependingAgeAndDate`) |
| `Pricing.TotalFarePermutation` | src/train-estimator.ts:116-144 | the total before group discounts does not depend on the order of the passengers |
| `Pricing.DefinePriceDependingAgeAndDate` | src/train-estimator.ts:116-144 | the loop, with its carried-over temporary price, adds exactly the sum of the passengers' prices to the total |
| `Discounts.FamilyLastNames` | src/train-estimator.ts:148 | the family names are non-empty, each is the last name of a Family card holder, and every Family card holder's non-empty last name is one of them |
| `Discounts.IsFamilyMember` | src/train-estimator.ts:149 | the filter's test: a member is older than 1, and a member with a fixed price is a child paying the child price of 9 (employees are never members) |
| `Discounts.FamilyMembers` | src/train-estimator.ts:149 | the filtered list holds exactly the passengers older than 1 who carry a family last name and no TrainStroke card, each as many times as it occurs in the group and no other passenger at all |
| `Discounts.FamilyAdjustment` | src/train-estimator.ts:152-161 | a member under 4 is adjusted by −2.7 (30% of the child price); for a non-negative fare a member of 4 or more is adjusted by between −30% and −10% of the fare |
| `Discounts.FamilyDelta` | src/train-estimator.ts:149-162 | the family change is the members' adjustments summed, and it is 0 when the group has no member (the loop in `Discounts.FamilyMembersSum`, insertion and order in `Discounts.FamilyDeltaIgnoresOutsiders` and `Discounts.FamilyPermutation`) |
| `Discounts.FamilyMembersSum` | src/train-estimator.ts:149-162 | summing the adjustments over the filtered list gives the family change taken over the whole list |
| `Discounts.FamilyDeltaIgnoresOutsiders` | src/train-estimator.ts:148-162 | adding a passenger who is not a family member, anywhere in the list, leaves the family change unchanged |
| `Discounts.FamilyPermutation` | src/train-estimator.ts:147-162 | neither the set of family last names nor the family change depends on the order of the passengers |
| `Discounts.ApplyFamilyDiscount` | src/train-estimator.ts:147-165 | the loop changes the total by the family change: +20% of the fare for a Senior card holder of 70 or more, −2.7 for a member under 4, −30% of the fare for a member of 4 or more |
| `Discounts.CoupleAdjustment` | src/train-estimator.ts:167-189 | for a non-negative fare the couple rules take off between 0 and 40% of the fare, and nothing for a group of neither one nor two passengers |
| `Discounts.CoupleCases` | src/train-estimator.ts:167-189 | for a positive fare, −40% exactly for two adults of whom one holds Couple, −10% exactly for one adult with HalfCouple, and no change for every other group: any other size, a pair without a Couple card or with a minor, a single passenger without HalfCouple or a minor |
| `Discounts.GroupAdjustment` | src/train-estimator.ts:146-190 | the change applyDiscountCards makes to the total: without a Family card between −40% of the fare and 0 for a non-negative fare, and nothing without any Family, Couple or HalfCouple card (order-independence in `Discounts.GroupAdjustmentPermutation`) |
| `Discounts.ApplyDiscountCards` | src/train-estimator.ts:146-190 | with a Family card anywhere, the family change alone and the couple rules never run; otherwise the couple rules |
| `Discounts.GroupAdjustmentPermutation` | src/train-estimator.ts:146-190 | the group discounts do not depend on the order of the passengers |
| `Discounts.MemberPriceNonNegative` | src/train-estimator.ts:153-161 | for a non-negative fare a family member still pays a non-negative amount after the family adjustment |
| `Discounts.FamilyTotalNonNegative` | src/train-estimator.ts:146-165 | for a non-negative fare the total after the family discount is never negative |
| `Estimator.Estimate` | src/train-estimator.ts:14-26 | validate, look up the fare, sum the passengers' prices, apply the group discounts: the result equals `Quote` |
| `Estimator.Quote` | src/train-estimator.ts:14-26 | an estimate fails only with `InvalidTripInput` or `ApiException`, and one without passengers that succeeds is 0 |
| `Estimator.QuoteErrors` | src/train-estimator.ts:14-57 | a failed check is reported whatever the price service answers; with valid input the only error is `ApiException` from the lookup; nothing else fails |
| `Estimator.QuoteOk` | src/train-estimator.ts:17-25 | with valid input and a usable price, the estimate is the sum of the passengers' prices plus the group change, computed from that price |
| `Estimator.NoPassengers` | src/train-estimator.ts:14-31 | without passengers the estimate is 0 whatever the trip details, unless the lookup fails, which gives `ApiException` |
| `Estimator.QuotePermutation` | src/train-estimator.ts:14-26 | the estimate does not depend on the order in which the passengers are listed |
| `Estimator.FamilyQuoteNonNegative` | src/train-estimator.ts:146-165 | with a Family card in the group and a non-negative fare, the quote is never negative |
| `Calendar.StartOfToday` | src/train-estimator.ts:45 | the intended bound is the midnight that starts the current day: it lies at most now and less than a day before it |
| `Calendar.CutoffAsWritten` | src/train-estimator.ts:45 | as written, the bound is midnight of a day between the last day of the previous month and the 6th of the current one, whatever today is |
| `Calendar.AsWrittenRejectsUpcomingDepartures` | src/train-estimator.ts:45 | as written, when the day of the week exceeds the day of the month, the bound lies after now, so upcoming departures are rejected |
| `Calendar.AsWrittenAcceptsPastDepartures` | src/train-estimator.ts:45 | as written, when the day of the month exceeds the day of the week, yesterday's departures are accepted |
| `Scenarios.SaturdayTheSecond` | src/train-estimator.ts:45 | on Saturday the 2nd a departure the next day is "Date is invalid" as written and accepted with the start of today as the bound |
| `Scenarios.AdultSixDaysAhead` | src/train-estimator.spec.ts:185-194 | an adult leaving in 6 days with fare 20 pays 29.6 |
| `Scenarios.AdultWithinFiveDays` | src/train-estimator.spec.ts:174-205 | an adult leaving in 7 hours or in 5 days with fare 20 pays 44 |
| `Scenarios.TwoFamiliesTotal` | src/train-estimator.spec.ts:296-306 | the two families and the extra adult pay 89 before discounts |
| `Scenarios.TwoFamiliesChange` | src/train-estimator.spec.ts:296-306 | both last names are family names, and the family change for that group is −20.7 |
| `Scenarios.TwoFamilies` | src/train-estimator.spec.ts:296-306 | the code quotes 68.3 for this group, not the 71 the unawaited test expects |
| `Scenarios.EmployeeCouple` | src/train-estimator.ts:167-177 | two employees with Couple cards and fare 20 are quoted −6 |

## Left out

- The HTTP request, URL building and JSON decoding of the price service. They are replaced by a function parameter that gives the `price` field for (from, to, when), or None when it is absent or not a number. The Promise and async plumbing is not modelled either.
- Wall-clock reads. `estimate` receives one `Clock` (now, start of the month, day of the month, day of the week). The source reads `new Date()` several times.
- Calendar arithmetic of `setDate` and `setHours`. Daylight-saving shifts are not modelled: 30 days is 30 × 86 400 000 ms and 6 hours is 6 × 3 600 000 ms.
- IEEE-754 double rounding. All arithmetic is exact on reals.
- Non-number ages (NaN) and values that are not strings. The types exclude them.
- Invalid dates. A `Date` whose time is NaN compares false with the bound at `src/train-estimator.ts:45`, so it passes validation, and it falls through every date window to the whole-fare branch at `src/train-estimator.ts:88`. Departures here are integer instants, so no such date exists.
- The model classes of `./model/trip.request` are not part of this model. `Passenger`, `TripDetails`, `TripRequest`, `DiscountCard` and the errors are defined here. Discount cards form a set; only membership is ever tested.
- The `baseApiUrl` field, used only to build the request URL. It is left out with the HTTP request.
- The `temporaryPrice` argument that `applyAgePriceModifier` ignores.
- Estimator.Estimate: `Quote` and `Estimate` validate the date against the start of today (`Calendar.StartOfToday`), not against the `getDay()` bound of `src/train-estimator.ts:45`. The as-written bound is `Calendar.CutoffAsWritten`, and its effect is stated under "## Findings" and in `Scenarios.SaturdayTheSecond`.
- The Jest harness and its mocks.

## Findings

| source | as written | input that shows it | evidently intended | confidence | as-written member | corrected member |
|---|---|---|---|---|---|---|
| src/train-estimator.ts:45 | the date bound is midnight of day `getDay()` (the day of the week, 0 to 6) of the current month | Saturday the 2nd at 09:00, departure at 09:00 the next day: "Date is invalid" | the bound is midnight at the start of the current day (`getDate()`) | high; not executed | `Calendar.CutoffAsWritten`, `Calendar.AsWrittenRejectsUpcomingDepartures` | `Calendar.StartOfToday` |
