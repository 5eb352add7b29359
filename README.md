# Hong Kong trip budget calculator — Dafny model

This project models the budget engine of a trip-planning calculator. A
travelling group has paying students and mentors who travel at the trip's
expense. The calculator prices five cost categories:

- hotel rooms (student pairs at the pair price; the odd student and every
  mentor at the per-person price);
- MTR and ferry fares, when transport is included;
- a meal plan, in which breakfast is not charged when the hotel serves it;
- the enabled activities;
- flights, which only mentors take.

From these it derives the total cost, the mentors' share of it, revenue
(only students pay), tax, profit, margin, the per-student figures and a
suggested minimum price per student.

The model covers three sources:

- `src/App.tsx`, the first revision. Its calculators are pure functions of
  one `Trip` value (module `Budget`). The component state and the list
  handlers (toggle, add, update and delete for hotels, activities and
  flights) are the class `Planner.TripPlanner`.
- `src/App-v2.tsx`, the second revision. Each category bill is split into
  what the students' places cost and what the mentors' places cost (module
  `BudgetV2`). The hotel and transport splits are computed anew and proved
  to add up to the first revision's bills. The meal, activities and
  flights splits take their bills from the first revision's functions, so
  those bills agree by construction; for them the model proves that the
  shares add up and that the mentors' shares match the first revision's,
  and it shows where the two revisions part.
- `verify-conversion.js`, the dollar/tenge conversion pair and the cases
  its script asserts (module `Conversion`).

Modules:

- `KeyedList`: the generic id-keyed list operations, namely `find`, `map`
  by id and `filter` by id.
- `TripTypes`: the records, fares, base meal prices and initial lists.
- `RealArith`: the sign and order facts about products and quotients of
  reals that the cost proofs combine.

Money is `real`, so the amounts are exact; head counts are `nat`.

## Model

| member | source | states |
|---|---|---|
| `Budget.SelectedHotel` | src/App.tsx:196 | the result is a listed hotel: the one with the selected id when there is one, otherwise the first |
| `Budget.KztAmount` | src/App.tsx:61-63 | the tenge figure beside an amount is that amount converted to KZT at 64.55 |
| `Budget.HotelCost` | src/App.tsx:199-212 | students are paired (`2*pairs <= students < 2*pairs + 2`); pairs and singles together hold every traveller exactly once; every mentor has a single place; the bill is pairs at the pair price plus singles at the per-person price |
| `Budget.PairPriceIsTwoPlaces` | src/App.tsx:199-212 | when a pair room costs two places, the hotel bill is the head count times the per-person price |
| `Budget.HotelCostNonNegative` | src/App.tsx:199-212 | non-negative room prices give a non-negative hotel bill |
| `Budget.HotelExtraMentor` | src/App.tsx:199-212 | one more mentor adds exactly one per-person place to the hotel bill |
| `Budget.TransportCost` | src/App.tsx:215-219 | nothing when transport is off; otherwise the MTR and ferry fares times the head count |
| `Budget.TransportPerCohort` | src/App.tsx:215-219 | the transport bill is the students' fares plus the mentors' fares |
| `Budget.TransportExtraMentor` | src/App.tsx:215-219 | with non-negative fares, one more mentor never lowers the transport bill |
| `Budget.MealCost` | src/App.tsx:222-240 | every traveller, mentors included, pays the plan's prices: lunch-dinner costs the head count times lunch plus dinner; breakfast-only costs the head count times breakfast, and nothing when the hotel serves breakfast; the full plan costs the head count times lunch, dinner and breakfast, breakfast counted only when the hotel does not serve it; the "none" plan and an empty group cost nothing |
| `Budget.BreakfastSuppression` | src/App.tsx:222-240 | with hotel breakfast, the full plan costs what lunch-dinner costs and no plan depends on the breakfast price; without it, the full plan is breakfast-only plus lunch-dinner |
| `Budget.MealCostNonNegative` | src/App.tsx:222-240 | non-negative meal prices give a non-negative meal bill |
| `Budget.MealExtraMentor` | src/App.tsx:222-240 | with non-negative meal prices, one more mentor never lowers the meal bill |
| `Budget.EnabledActivities` | src/App.tsx:245-246 | the filter keeps exactly the enabled activities: everything it returns is enabled and from the list, and every enabled activity of the list is kept |
| `Budget.EnabledAppend` | src/App.tsx:245-246 | filtering a concatenation is concatenating the filtered parts |
| `Budget.PerHeadSum` | src/App.tsx:245-247 | the left-fold `reduce` equals the head count times the sum of the prices, and is 0 for an empty group |
| `Budget.ActivitiesCost` | src/App.tsx:243-248 | the bill is the head count times the sum of the enabled activities' prices, and nothing for an empty group |
| `Budget.DisabledActivityCostsNothing` | src/App.tsx:243-248 | a disabled activity inserted anywhere in the list leaves the bill unchanged |
| `Budget.ActivitiesCostNonNegative` | src/App.tsx:243-248 | non-negative activity prices give a non-negative activities bill |
| `Budget.ActivitiesExtraMentor` | src/App.tsx:243-248 | with non-negative prices, one more traveller never lowers the activities bill |
| `Budget.FlightsCost` | src/App.tsx:251-253 | with no mentors, the flights cost nothing |
| `Budget.FlightsCostIsScaledFare` | src/App.tsx:251-253 | the flights bill is the mentor count times the sum of the ticket prices |
| `Budget.FlightsCostNonNegative` | src/App.tsx:251-253 | non-negative fares give a non-negative flights bill |
| `Budget.FlightsExtraMentor` | src/App.tsx:251-253 | with non-negative fares, one more mentor never lowers the flights bill |
| `Budget.CategoryCosts` | src/App.tsx:255-259 | an empty group costs nothing in total, and with no mentors the flights cost nothing |
| `Budget.TotalCost` | src/App.tsx:255-261 | the total cost is the five category bills added, and an empty group costs nothing |
| `Budget.TotalCostNonNegative` | src/App.tsx:261 | with non-negative prices, every category bill and the total cost (their sum) are non-negative |
| `Budget.MentorShare` | src/App.tsx:266-267 | for a positive bill, the share times the head count equals the bill times the mentor count; otherwise, or with no mentors, it is 0 |
| `Budget.MentorShareWithinBill` | src/App.tsx:266-267 | the share of a non-negative bill lies between 0 and the bill |
| `Budget.MentorBreakdown` | src/App.tsx:264-270 | the mentors' figures are their rooms, their fares, their head-count shares of the meal and activities bills, and the whole flights bill; with no mentors they add up to nothing |
| `Budget.MentorRooms` | src/App.tsx:264 | the mentors' rooms are what the mentors add to the students' hotel bill, and nothing without mentors |
| `Budget.MentorFares` | src/App.tsx:265 | the mentors' fares are the transport bill of the mentors alone, and nothing when transport is off or there are no mentors |
| `Budget.MentorCosts.Total` | src/App.tsx:270 | when no other mentor figure is negative, the mentors' total is at least their flights |
| `Budget.MentorHotelWithinBill` | src/App.tsx:264 | the mentors' rooms are between 0 and the hotel bill |
| `Budget.MentorFaresWithinBill` | src/App.tsx:265 | the mentors' fares are between 0 and the transport bill |
| `Budget.MentorMealsWithinBill` | src/App.tsx:266 | the mentors' meal share is between 0 and the meal bill |
| `Budget.MentorActivitiesWithinBill` | src/App.tsx:267 | the mentors' activities share is between 0 and the activities bill |
| `Budget.MentorCostPerCategory` | src/App.tsx:264-268 | with non-negative prices, each mentor figure is within its category's bill and the flights figure is the whole bill |
| `Budget.MentorCostWithinTotal` | src/App.tsx:264-270 | with non-negative prices, the mentors' total is between 0 and the trip's total cost |
| `Budget.RevenueAndProfit` | src/App.tsx:272-285 | revenue is students times price; tax is the percentage of revenue and revenue after tax the rest; profit plus cost is revenue after tax, never clamped; the margin and the per-student figures invert their divisions when the divisor is non-zero (or revenue positive) and are 0 otherwise |
| `Budget.Report` | src/App.tsx:280 | profit is revenue after tax minus the trip's total cost |
| `Budget.RevenueIgnoresMentors` | src/App.tsx:273-277 | revenue, tax and revenue after tax depend on neither the mentor count nor the cost |
| `Budget.ProfitFallsWithCost` | src/App.tsx:280 | profit falls one for one with cost |
| `Budget.ExtraMentorNeverCheaper` | src/App.tsx:255-280 | with non-negative prices, one more mentor never lowers the total cost nor raises the profit |
| `Budget.MinimumPriceHint` | src/App.tsx:1303 | `ceil(totalCost / students)` is the least whole price whose revenue covers the total cost |
| `KeyedList.Find` | src/App.tsx:196 | `find` fails exactly when no item has the id, and otherwise returns the first item that has it |
| `KeyedList.ReplaceById` | src/App.tsx:308-311 | the `map` keeps the length and puts the new item exactly where an item with its id was |
| `KeyedList.ReplaceKeepsIds` | src/App.tsx:334-337 | replacing never changes which id sits where, so unique ids stay unique |
| `KeyedList.ReplaceThenFind` | src/App.tsx:357-360 | after replacing an id that is present, looking it up finds the new item |
| `KeyedList.ReplaceIdempotent` | src/App.tsx:308-311 | replacing twice with the same item is replacing once |
| `KeyedList.RemoveById` | src/App.tsx:339-341 | the `filter` drops every item with the id and keeps every other item |
| `KeyedList.RemoveByIdAppend` | src/App.tsx:362-364 | filtering distributes over concatenation, so the survivors keep their order |
| `KeyedList.RemoveAbsentId` | src/App.tsx:339-341 | removing an id that no item has leaves the list unchanged |
| `KeyedList.RemoveUndoesAppend` | src/App.tsx:321-341 | deleting a freshly added item restores the list |
| `KeyedList.RemovePresentUnique` | src/App.tsx:313-319 | with unique ids, removing a present id drops exactly one item |
| `KeyedList.RemoveKeepsUnique` | src/App.tsx:339-341 | filtering keeps ids unique |
| `KeyedList.AppendFreshUnique` | src/App.tsx:293-306 | appending an item with an unused id keeps ids unique |
| `Planner.ToggleById` | src/App.tsx:287-291 | the `map` flips `enabled` on the items with the id and leaves every other item as it was |
| `Planner.ToggleTwice` | src/App.tsx:287-291 | toggling the same id twice restores the list |
| `Planner.ToggleKeepsIds` | src/App.tsx:287-291 | toggling keeps every id in place, so unique ids stay unique |
| `Planner.ToggleAbsentId` | src/App.tsx:287-291 | toggling an id that no item has changes nothing |
| `Planner.ToggleChangesEnabledTotal` | src/App.tsx:287-291 | toggling one activity moves the enabled price total by exactly its price, down if it was enabled and up if not |
| `Planner.AddedActivityIsFree` | src/App.tsx:321-332 | a new activity is free, so adding it leaves the activities bill unchanged, and deleting it restores the list |
| `Planner.NewHotel` | src/App.tsx:294-303 | the hotel `addHotel` appends carries the given id, costs nothing per person or per pair, and serves no breakfast |
| `Planner.NewActivity` | src/App.tsx:322-329 | the activity `addActivity` appends carries the given id, is enabled and costs nothing |
| `Planner.NewFlight` | src/App.tsx:344-352 | the flight `addFlight` appends carries the given id and costs nothing |
| `Planner.TripPlanner.constructor` | src/App.tsx:154-193 | the initial state: 24 students, 2 mentors, the two hotels with "dorsett" selected, the six activities, the two flights, no meals, the base meal prices, transport on |
| `Planner.TripPlanner.SelectedHotel` | src/App.tsx:196 | the hotel used is always a listed one: the selected one whenever that id is listed, otherwise the first |
| `Planner.TripPlanner.CurrentTrip` | src/App.tsx:196-259 | the calculators read the current settings, lists, meal plan, meal prices and transport switch, and the hotel `SelectedHotel` picks, with the fixed fares |
| `Planner.TripPlanner.ToggleActivity` | src/App.tsx:287-291 | the activities become their toggled copy; ids stay unique |
| `Planner.TripPlanner.AddHotel` | src/App.tsx:293-306 | a new hotel with the given id, a placeholder name and zero prices is appended; ids stay unique |
| `Planner.TripPlanner.UpdateHotel` | src/App.tsx:308-311 | the hotel with the item's id is replaced; ids stay unique and the list stays non-empty |
| `Planner.TripPlanner.DeleteHotel` | src/App.tsx:313-319 | the last hotel is never deleted; otherwise the id is filtered out, one hotel fewer when it was listed; a deleted selection moves to the id the list started with; when that was the deleted first hotel, the first remaining hotel is used |
| `Planner.TripPlanner.AddActivity` | src/App.tsx:321-332 | a new enabled, free activity with the given id is appended; ids stay unique |
| `Planner.TripPlanner.UpdateActivity` | src/App.tsx:334-337 | the activity with the item's id is replaced; ids stay unique |
| `Planner.TripPlanner.DeleteActivity` | src/App.tsx:339-341 | every activity with the id is filtered out; ids stay unique |
| `Planner.TripPlanner.AddFlight` | src/App.tsx:343-355 | a new free flight dated on the first day of the trip is appended; ids stay unique |
| `Planner.TripPlanner.UpdateFlight` | src/App.tsx:357-360 | the flight with the item's id is replaced; ids stay unique |
| `Planner.TripPlanner.DeleteFlight` | src/App.tsx:362-364 | every flight with the id is filtered out; ids stay unique |
| `Planner.DeleteSelectedOfTwo` | src/App.tsx:313-319 | deleting the selected one of two hotels, first or second, leaves the other, and it becomes the hotel used |
| `KeyedList.RemoveFromPair` | src/App.tsx:313-319 | filtering one id out of two items with distinct ids leaves exactly the other item |
| `BudgetV2.HotelSplit` | src/App-v2.tsx:200-215 | the bill is the first revision's; the students' share is the bill with no mentors, the mentors' share is their single places, and the two add up to the bill |
| `BudgetV2.TransportSplit` | src/App-v2.tsx:218-226 | the bill is the first revision's; each cohort's share is the bill for that cohort alone, and the two add up to the bill (all three 0 when transport is off) |
| `BudgetV2.PerHeadSplit` | src/App-v2.tsx:252-256 | for a non-empty group, each cohort's share times the head count is the bill times the cohort's size, and the shares add up to the bill; for an empty group both shares are 0 |
| `BudgetV2.MealSplit` | src/App-v2.tsx:229-258 | the meal bill is the first revision's, breakfast rule included, and its shares add up to it |
| `BudgetV2.ActivitiesSplit` | src/App-v2.tsx:261-273 | the activities bill is the first revision's and its shares add up to it |
| `BudgetV2.FlightsSplit` | src/App-v2.tsx:276-283 | the flights bill is the first revision's, the students pay none of it and the mentors all of it |
| `BudgetV2.Breakdown.TotalCost` | src/App-v2.tsx:291 | when every split is conserved, the total cost is the students' total plus the mentors' total |
| `BudgetV2.Breakdown.TotalMentorCost` | src/App-v2.tsx:292 | when every split is conserved, the mentors' total is the five bills less the students' shares |
| `BudgetV2.Breakdown.TotalStudentsCost` | src/App-v2.tsx:293 | when every split is conserved, the students' total is the five bills less the mentors' shares |
| `BudgetV2.Splits` | src/App-v2.tsx:285-293 | every category split adds up; the total cost is the first revision's; the students' cost plus the mentors' cost is the total cost |
| `BudgetV2.PerHeadShareAgrees` | src/App-v2.tsx:252-256 | for a non-negative bill, the per-head mentor share equals the first revision's mentor share |
| `BudgetV2.MealsAgree` | src/App-v2.tsx:252-256 | with non-negative meal prices, the mentors' meal share equals the first revision's |
| `BudgetV2.ActivitiesAgree` | src/App-v2.tsx:267-272 | with non-negative activity prices, the mentors' activities share equals the first revision's |
| `BudgetV2.NegativeBillDiverges` | src/App-v2.tsx:267-272 | for a negative bill, the first revision charges the mentors nothing and the second a negative share |
| `BudgetV2.MentorCostAgreesWithFirstRevision` | src/App-v2.tsx:292 | with non-negative prices, each category's mentor cost equals the first revision's figure |
| `BudgetV2.MentorTotalAgreesWithFirstRevision` | src/App-v2.tsx:292 | with non-negative prices, the mentors' total equals the first revision's |
| `BudgetV2.Report` | src/App-v2.tsx:296-308 | revenue, tax, profit, margin and the per-student figures are exactly the first revision's |
| `Conversion.ToDisplayCurrency` | verify-conversion.js:11-15 | in KZT the amount is scaled by the rate; in any other currency it is shown as it is |
| `Conversion.ToHkd` | verify-conversion.js:17-21 | in KZT the result times the rate is the typed amount; in any other currency it is the typed amount |
| `Conversion.RoundTrip` | verify-conversion.js:52-60 | storing what is displayed gives back the stored amount, in every currency, for a non-zero rate |
| `Conversion.RoundTripFromDisplay` | verify-conversion.js:34-49 | displaying what was stored from a typed amount shows that amount again |
| `Conversion.DisplayIsLinear` | verify-conversion.js:63-78 | the conversion maps sums to sums, multiples to multiples and 0 to 0 |
| `Conversion.DisplayIsMonotone` | verify-conversion.js:11-15 | for a positive rate, a larger amount is never displayed as a smaller one |
| `Conversion.ScriptCases` | verify-conversion.js:26-78 | the script's cases at 59 tenge per dollar: 8903, 3876, 182, 100 and 0 dollars convert to their products; 600000 tenge is stored within 0.01 of 10169.49; HKD mode shows it unchanged; 8903 survives the round trip |

## Left out

- Rendering: JSX, styling, icons, the `show*` and `editing*` flags, the
  `toFixed` percentages and the per-category percentage-of-total shares
  are presentation only. `formatCurrency`'s `toLocaleString` formatting is
  left out; only its dollar-to-tenge product is modelled (`KztAmount`).
- Input parsing: `parseInt`/`parseFloat` on the input fields are not
  modelled. Head counts arrive as `nat`, prices and tax as `real`.
- React plumbing: the state setters are modelled as field assignments of
  `TripPlanner`. The setters for settings, the meal plan, meal prices, the
  transport switch and choosing a hotel only store the value typed or
  clicked, so they are fields of the class without methods of their own.
- The second revision's list handlers (src/App-v2.tsx:310-387) are the
  same text as the first's and are modelled once, by `TripPlanner`.
- Floating point: amounts are exact reals. The conversion script's 0.01
  tolerance on the round trip becomes an equality, and the rounding of a
  displayed amount is not modelled.
- Planner.TripPlanner.AddHotel: the new id comes from `Date.now()`. It is
  a parameter that must not already be in use, as
  `Planner.TripPlanner.AddActivity` and `Planner.TripPlanner.AddFlight`
  require too. Clock time is not modelled.
- Conversion.ToHkd: requires a non-zero rate in KZT mode. JavaScript would
  return an infinite or undefined quotient there, which reals cannot
  represent.
- Budget.MinimumPriceHint: requires at least one student. The source
  divides without a guard, and a quotient by zero has no real value. The
  condition that shows the hint (price per student 0, src/App.tsx:1297)
  belongs to rendering.
- Budget.MentorShare: requires that an empty group has a zero bill. Every
  bill the calculator passes it is a multiple of the head count, so this
  always holds.
- Planner.ToggleChangesEnabledTotal: states the change in the enabled
  price total. The change in the activities bill is that total times the
  head count, by `Budget.ActivitiesCost`'s contract; it is not stated as a
  lemma of its own.
- BudgetV2.MealSplit: states the bill and that its shares add up. The
  per-head relation of each share is stated by `BudgetV2.PerHeadSplit`,
  and the agreement with the first revision by `BudgetV2.MealsAgree`.
  The same holds for `BudgetV2.ActivitiesSplit` with
  `BudgetV2.ActivitiesAgree`.
- The hotel rule is modelled as the code computes it. Student pairs pay
  the pair price; the odd student and every mentor pay the per-person
  price.
