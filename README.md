# Drink-stand order app — a Dafny model of its bookkeeping

The modelled system is a small order-taking and reporting app for a drink stand (Next.js pages and
route handlers over a Supabase table store and a JSON file). Staff enter orders on a keypad form
(table number, menu, drink type, payment method, receipt status, cash amount). They then mark each
order completed or cancelled from the order list. The app then:

- splits each day's completed orders into an early shift (created up to 16:50 JST) and a late shift;
- counts each shift by drink, by price tier and by payment method;
- sums the cash taken and stores a per-shift sales report;
- keeps a cup ledger of planned, used, received and issued cups;
- carries each day's remaining cups forward from a 200-cup baseline, closes each day automatically,
  and answers "how many cups are available today";
- ranks menus and trading days, and shows monthly and daily shift counts.

This project models that logic in Dafny, one module per source file:

| module | source file |
|---|---|
| `SalesReportGenerate` | `src/app/api/orders/sales-report/generate/route.ts` (payment aliases, shift split, tallies, the three keyed upserts) |
| `ShiftSummaries` | the shift-summary record shared by the generator and the sales page (`initSummary`, the merge into a day total) |
| `SalesPage` | `src/app/sales/page.tsx` (client copy of the aggregation, start-cup defaults, remaining cups, adjusted cash, total card) |
| `CupInventoryPage` | `src/app/cup-inventory/page.tsx` (`parseDate`, carry-forward, month filter, sentinel default, stock modal) |
| `AutoClose` | `src/app/api/orders/cup-inventory/auto-close/route.ts` |
| `AvailableRoute` | `src/app/api/orders/cup-inventory/available/route.ts` |
| `CupSummaryRoute` | `src/app/api/orders/cup-inventory/summary/route.ts` |
| `CupUtils` | `src/app/utils/cupUtils.ts` |
| `PreviousRemainingRoute` | `src/app/api/orders/get-previous-cup-remaining/route.ts` |
| `RemainingRoute` | `src/app/api/orders/cup-inventory/remaining/route.ts` |
| `CupInventoryRoute` | `src/app/api/orders/cup-inventory/route.ts` |
| `CupLedger` | the daily ledger records and the file store that several routes share |
| `CupStore` | `store/cupInventory.ts` |
| `StartCupRoute` | `src/app/api/orders/start-cup/route.ts` |
| `SalesReportsRoute` | `src/app/api/orders/sales_reports/route.ts` |
| `OrdersRoute` | `src/app/api/orders/route.ts` |
| `NewOrderForm` | `src/app/components/NewOrderForm.tsx` |
| `MenuItems` | `src/app/date/menuItems.ts` |
| `MonthlySales` | `src/app/monthly-sales/page.tsx` |
| `RankingPage` | `src/app/ranking/page.tsx` |
| `OrderListPage` | `src/app/order-list/page.tsx` |
| `CompletedOrdersPage` | `src/app/completed-orders/page.tsx` |
| `JstDate` | `src/app/utils/date.ts` (`YYYY-MM-DD HH:mm` in JST) |

Supporting modules: `Wrappers` (Option), `JsValues` (the JSON values a request or row carries,
with JavaScript's falsy, nullish, `??` and `||`), `Text` (decimal digits, `padStart`, `parseInt`,
the integer part of `Number`), `Calendar` (day numbers and civil dates, UTC and JST fields,
`YYYY-MM-DD` keys) and `Sorting` (a stable sort by a comparator, as `Array.prototype.sort` is).

Representation choices:

- An instant is an integer count of milliseconds since 1970-01-01T00:00:00Z. A day is an integer
  day number counted from that date.
- A date string the source hands to `new Date(...)` arrives already parsed, as an `Option` of an
  instant or a day. The current time (`new Date()`) is a parameter.
- A table or file the source reads and writes is a class field (`seq` or `map`) that the route's
  methods reassign. Rows a page or route fetches with a filtered query are inputs.
- Stores and pages that change state step by step are classes with `modifies` clauses:
  `CupStore.CupInventory`, `NewOrderForm.OrderForm`, the ledger file, the order, start-cup and report tables.
  The loops that build summaries, rankings and monthly buckets are methods whose invariants tie
  them to fold functions. The properties are proved about those functions.

Behaviour of the code worth noting, which the model keeps:

- The carry-forward starts its running total at 200 even when no `繰り越し` sentinel comes first
  (`src/app/cup-inventory/page.tsx:174`).
- The available-cups search stops at the nearest of the seven preceding days that has any record.
  When that record has no remaining value it contributes 0; older records are not consulted
  (`src/app/api/orders/cup-inventory/available/route.ts:35-44`).
- The adjusted cash figure of the sales page is 300·(300-yen cash count) + 500·(cash count of every
  other price) + diff, rebuilt from counts. It equals cash sales + diff only when every cash order
  is priced 300 or 500 (`src/app/sales/page.tsx:317-321`).
- The monthly view counts orders of every status into the early and late counts
  (`src/app/monthly-sales/page.tsx:130-142`).
- The orders GET date window is `[T00:00:00+09:00, T23:59:59+09:00]`, both ends included. An order
  created in the last second of a JST day is listed for no date (see Findings).

## Model

| member | source | states |
|---|---|---|
| CupLedger.Find | src/app/api/orders/cup-inventory/available/route.ts:29 | `find` by exact date: none exactly when no entry has the date; otherwise the first entry that has it |
| AutoClose.LocalKeyIsDayKey | src/app/api/orders/cup-inventory/auto-close/route.ts:17-22 | for four-digit years the `${yyyy}-${mm}-${dd}` key of the day before, with two-digit month and day, is that day's ISO `YYYY-MM-DD` key |
| AutoClose.CountedOnDay | src/app/api/orders/cup-inventory/auto-close/route.ts:31-35 | an order is counted for the target key exactly when it is completed and was created on the target UTC day |
| AutoClose.NotCompletedIgnored | src/app/api/orders/cup-inventory/auto-close/route.ts:31-38 | a pending or cancelled order, wherever it sits, never changes iceUsed or hotUsed |
| AutoClose.UsedAppend | src/app/api/orders/cup-inventory/auto-close/route.ts:37-38 | the per-drink counts add up over concatenated order lists |
| AutoClose.NewEntry | src/app/api/orders/cup-inventory/auto-close/route.ts:37-47 | the new entry has the target date, iceUsed/hotUsed equal to the counts of counted ice/hot orders, and plannedIce = plannedHot = 0 |
| AutoClose.LocalKey | src/app/api/orders/cup-inventory/auto-close/route.ts:17-22 | `${yyyy}-${mm}-${dd}` of a local day; LocalKeyIsDayKey states that it is the ISO day key within four-digit years |
| AutoClose.Closed | src/app/api/orders/cup-inventory/auto-close/route.ts:25-50 | after a run the ledger has an entry for the target date, and it is at most one entry longer than before |
| AutoClose.AnyWithDate | src/app/api/orders/cup-inventory/auto-close/route.ts:25 | the `some` scan answers true exactly when an entry has the target date |
| AutoClose.ClosedIdempotent | src/app/api/orders/cup-inventory/auto-close/route.ts:25-49 | a second run for the same day leaves the ledger as the first run left it |
| AutoClose.ClosedCountsOnce | src/app/api/orders/cup-inventory/auto-close/route.ts:25-49 | after a run the target date has exactly one entry when it had none, and no more entries than before otherwise |
| AutoClose.ClosedAppendsOnly | src/app/api/orders/cup-inventory/auto-close/route.ts:49-50 | the earlier entries are kept unchanged and at most one entry is added, at the end |
| AutoClose.LedgerFile.Post | src/app/api/orders/cup-inventory/auto-close/route.ts:8-52 | the file becomes the closed ledger; an entry is written exactly when the date was not yet recorded, and it is the new entry |
| AvailableRoute.LookBack | src/app/api/orders/cup-inventory/available/route.ts:35-38 | the seven keys looked at are those of days d−1 … d−7, nearest first |
| AvailableRoute.Nearest | src/app/api/orders/cup-inventory/available/route.ts:35-41 | the position found has an entry and no nearer position does; the end when none does |
| AvailableRoute.Previous | src/app/api/orders/cup-inventory/available/route.ts:35-41 | a previous entry, when found, is one of the ledger's entries, dated with one of the seven keys looked at |
| AvailableRoute.Totals | src/app/api/orders/cup-inventory/available/route.ts:43-44 | each total is the current entry's planned cups (or 0) plus the previous entry's remaining cups (or 0), ice and hot independently |
| AvailableRoute.Get | src/app/api/orders/cup-inventory/available/route.ts:17-50 | 400 for a missing or empty date; 500 when the date is not a date; otherwise the totals of the first exact-date entry and the nearest of the seven previous days, found by the loop with its early `break` |
| AvailableRoute.NearestPrevious | src/app/api/orders/cup-inventory/available/route.ts:35-41 | the loop over one to seven days back, breaking at the first day whose key has an entry, yields exactly the entry of the nearest such day, or none |
| AvailableRoute.PreviousIsNearest | src/app/api/orders/cup-inventory/available/route.ts:35-41 | the previous entry is the one of the nearest earlier day that has an entry, even when that entry lacks remaining cups |
| AvailableRoute.NothingWithinAWeek | src/app/api/orders/cup-inventory/available/route.ts:43-44 | with no entry in the seven previous days there is no previous entry and only the planned cups count |
| AvailableRoute.PreviousInWeek | src/app/api/orders/cup-inventory/available/route.ts:35-41 | a previous entry, when found, is dated one of the seven preceding days |
| AvailableRoute.WeekKeysDiffer | src/app/api/orders/cup-inventory/available/route.ts:35-38 | within four-digit years none of the seven keys is the requested day's key, so the day's own entry is never taken as previous |
| CupSummaryRoute.StockSumAppend | src/app/api/orders/cup-inventory/summary/route.ts:48-59 | the stock sums add up over concatenated movement lists |
| CupSummaryRoute.OtherMovementIgnored | src/app/api/orders/cup-inventory/summary/route.ts:48-59 | a movement of another date or cup type adds nothing, wherever it sits |
| CupSummaryRoute.FindDay | src/app/api/orders/cup-inventory/summary/route.ts:36-41 | the entry found is the first whose date starts with the key; none exactly when no entry's date does |
| CupSummaryRoute.DaySummary | src/app/api/orders/cup-inventory/summary/route.ts:37-63 | planned/used default to 0 without today's entry or field, previous remaining to 0 without the previous entry, stock-in/out are the sums for the date and cup type, and remaining = previous + planned + in − out − used |
| CupSummaryRoute.Get | src/app/api/orders/cup-inventory/summary/route.ts:5-63 | 400 exactly for a missing or empty date, 500 when it is not a date, otherwise the summary of the 10-character date with the previous UTC day's entry and the day's own entry |
| CupSummaryRoute.CupTypesIndependent | src/app/api/orders/cup-inventory/summary/route.ts:48-63 | the ice figures ignore non-ice movements and the hot figures non-hot movements |
| CupSummaryRoute.OtherDaysIgnored | src/app/api/orders/cup-inventory/summary/route.ts:48-63 | movements of other dates leave the whole summary unchanged |
| CupSummaryRoute.NoEntriesIsStockOnly | src/app/api/orders/cup-inventory/summary/route.ts:37-45 | without the two ledger entries planned and used are 0 and remaining is stock-in minus stock-out |
| CupUtils.Clamped | src/app/utils/cupUtils.ts:27-28 | `Math.max(planned − used, 0)`: present exactly when both operands are, never negative, and either 0 or the exact difference |
| CupUtils.LeftoverOf | src/app/utils/cupUtils.ts:22-29 | no record gives {0, 0}; a record gives the clamped differences |
| CupUtils.PreviousCupRemaining | src/app/utils/cupUtils.ts:12-29 | {ice: 0, hot: 0} when no record carries the key of the day before the base instant; otherwise, for the first record that does, max(planned − used, 0) of each drink |
| CupUtils.LeftoverNonNegative | src/app/utils/cupUtils.ts:26-29 | neither figure is ever negative |
| CupUtils.LeftoverExact | src/app/utils/cupUtils.ts:27-28 | with planned ≥ used the figures are exactly planned − used |
| CupUtils.PreviousKeyIsPreviousDay | src/app/utils/cupUtils.ts:13-15 | within four-digit years the key looked up is the ISO key of the UTC day before the base instant |
| CupUtils.PreviousDayLeftover | src/app/utils/cupUtils.ts:13-28 | within four-digit years, the first record dated the UTC day before the base instant, with no more cups used than planned, gives exactly planned − used of each drink |
| PreviousRemainingRoute.Reverse | src/app/api/orders/get-previous-cup-remaining/route.ts:10-11 | the copy has the same length and holds the entries in reverse order |
| PreviousRemainingRoute.FirstComplete | src/app/api/orders/get-previous-cup-remaining/route.ts:12 | none exactly when no entry has both remaining figures, otherwise the first that has them |
| PreviousRemainingRoute.LatestNoneIffNoComplete | src/app/api/orders/get-previous-cup-remaining/route.ts:10-14 | there is no answer exactly when no entry carries both figures; entries with one figure are skipped |
| PreviousRemainingRoute.LatestIsLastComplete | src/app/api/orders/get-previous-cup-remaining/route.ts:10-12 | the answer is a complete entry with no complete entry after it in file order |
| PreviousRemainingRoute.Get | src/app/api/orders/get-previous-cup-remaining/route.ts:14-21 | {0, 0} without a complete entry, else the latest complete entry's two figures |
| PreviousRemainingRoute.AppendCompleteWins | src/app/api/orders/get-previous-cup-remaining/route.ts:10-21 | appending a complete entry makes it the answer |
| PreviousRemainingRoute.AppendIncompleteIgnored | src/app/api/orders/get-previous-cup-remaining/route.ts:10-21 | appending an entry lacking a figure changes nothing |
| RemainingRoute.Get | src/app/api/orders/cup-inventory/remaining/route.ts:8-26 | 400 exactly for a missing or empty date, `null` exactly when no entry has the date, otherwise the date and the first matching entry's two remaining figures only |
| CupInventoryRoute.Existing | src/app/api/orders/cup-inventory/route.ts:11 | a blank file reads as no records, otherwise as its parsed records |
| CupInventoryRoute.NegativeCountsAccepted | src/app/api/orders/cup-inventory/route.ts:22-29 | with a truthy date and a known cup type, negative numeric counts pass the validation |
| CupInventoryRoute.CupTypeChecked | src/app/api/orders/cup-inventory/route.ts:26 | a cup type other than アイス or ホット is refused |
| CupInventoryRoute.MovementFile.Read | src/app/api/orders/cup-inventory/route.ts:8-12 | GET returns the stored records, `[]` for a blank file |
| CupInventoryRoute.MovementFile.Post | src/app/api/orders/cup-inventory/route.ts:18-37 | 400 exactly when the date is falsy, a count is not a number or the cup type is unknown, leaving the file unchanged; otherwise the file holds the earlier records followed by the new one |
| CupStore.CupInventory.constructor | store/cupInventory.ts:22-28 | the store starts with totals 0, planned 50 each and used 0 |
| CupStore.CupInventory.SetTotalIce | store/cupInventory.ts:30 | replaces totalIce and nothing else |
| CupStore.CupInventory.SetTotalHot | store/cupInventory.ts:31 | replaces totalHot and nothing else |
| CupStore.CupInventory.SetPlannedIce | store/cupInventory.ts:32 | replaces plannedIce and nothing else |
| CupStore.CupInventory.SetPlannedHot | store/cupInventory.ts:33 | replaces plannedHot and nothing else |
| CupStore.CupInventory.IncrementUsedIce | store/cupInventory.ts:35-36 | adds count (1 by default) to usedIce and changes nothing else |
| CupStore.CupInventory.IncrementUsedHot | store/cupInventory.ts:37-38 | adds count (1 by default) to usedHot and changes nothing else |
| CupStore.CupInventory.ResetUsed | store/cupInventory.ts:40 | zeroes both used counters; totals and planned counts stay |
| CupStore.CupInventory.AddStockIce | store/cupInventory.ts:42-43 | adds count to totalIce only |
| CupStore.CupInventory.AddStockHot | store/cupInventory.ts:44-45 | adds count to totalHot only |
| CupInventoryPage.MatchLabel | src/app/cup-inventory/page.tsx:17 | every one- or two-digit month and day written around 月 and 日 matches, with those numbers as its values |
| CupInventoryPage.CarryIsNoLabel | src/app/cup-inventory/page.tsx:16-18 | the carry-over sentinel 繰り越し never matches the date pattern |
| CupInventoryPage.TodayLabelParses | src/app/cup-inventory/page.tsx:15-36 | the label the stock modal writes for a date of the current year parses back to that same day |
| CupInventoryPage.ParseDate | src/app/cup-inventory/page.tsx:15-21 | the sentinel parses to nothing, and a text parses to a day exactly when it is a `M月D日` label of one or two digits each |
| CupInventoryPage.CompareConsistent | src/app/cup-inventory/page.tsx:165-172 | when every label parses, the sort comparator is a consistent total preorder on the ledger |
| CupInventoryPage.SortedLedger | src/app/cup-inventory/page.tsx:165-172 | in the sorted ledger every sentinel comes before every dated record and the dated records are in ascending date order |
| CupInventoryPage.CalcRemaining | src/app/cup-inventory/page.tsx:164-183 | the result is the sorted copy with each record's remaining set to the running total after it |
| CupInventoryPage.RunningTotals | src/app/cup-inventory/page.tsx:174-182 | the walk over the sorted copy gives each record, in place, the running total after it: 200 at a sentinel, otherwise the previous total plus in minus out, starting from 200 |
| CupInventoryPage.LedgerShape | src/app/cup-inventory/page.tsx:164-183 | the shown ledger is a permutation of the input records, with only remaining filled in |
| CupInventoryPage.RemainingSteps | src/app/cup-inventory/page.tsx:174-182 | a sentinel shows 200; any other record shows the previous total (200 at the start) plus inStock minus outStock |
| CupInventoryPage.TotalWithoutCarry | src/app/cup-inventory/page.tsx:174-182 | with no sentinel, the final total is 200 plus the net movement |
| CupInventoryPage.TotalAfterLastCarry | src/app/cup-inventory/page.tsx:174-182 | after the last sentinel, the total is 200 plus only the later movements |
| CupInventoryPage.FilterByMonth | src/app/cup-inventory/page.tsx:185-192 | keeps exactly the sentinels and the records whose parsed date lies in the selected year and month; with FilterByMonthSnoc, in their order and with their multiplicity |
| CupInventoryPage.FilterByMonthSnoc | src/app/cup-inventory/page.tsx:185-192 | filtering a list with one more record at the end gives the filtered list, followed by that record when it is shown |
| CupInventoryPage.TodayRecordShown | src/app/cup-inventory/page.tsx:33-36 | a movement entered today is shown when the current month of the current year is selected |
| CupInventoryPage.OfType | src/app/cup-inventory/page.tsx:122-123 | keeps exactly the fetched records of one cup type; with OfTypeSnoc, in their fetched order and with their multiplicity |
| CupInventoryPage.OfTypeSnoc | src/app/cup-inventory/page.tsx:122-123 | selecting a cup type from a list with one more record at the end gives the selection, followed by that record when it is of that type |
| CupInventoryPage.LedgerOf | src/app/cup-inventory/page.tsx:121-134 | a cup type's list is its fetched records, or a single zero sentinel when there are none |
| CupInventoryPage.ModalCount | src/app/cup-inventory/page.tsx:40-52 | the count is refused when it is not a number, or when it is below 1 for a stock-out; otherwise it is the number entered |
| CupInventoryPage.ModalCountOfNumber | src/app/cup-inventory/page.tsx:41-49 | stock-in accepts every integer; stock-out accepts exactly the positive ones |
| CupInventoryPage.NewRecord | src/app/cup-inventory/page.tsx:219-224 | stock-in puts the count in inStock and 0 in outStock; stock-out does the reverse; date and cup type are copied |
| CupInventoryPage.CupInventory.constructor | src/app/cup-inventory/page.tsx:98-108 | both ledgers start empty, the modal is closed and set to アイス / 入庫 |
| CupInventoryPage.CupInventory.Load | src/app/cup-inventory/page.tsx:117-141 | each ledger becomes the list loaded for its cup type, and the modal state is untouched |
| CupInventoryPage.CupInventory.OpenModal | src/app/cup-inventory/page.tsx:197-201 | records the cup type and mode and opens the modal, leaving the ledgers unchanged |
| CupInventoryPage.CupInventory.HandleModalSubmit | src/app/cup-inventory/page.tsx:218-232 | the new record is appended to the chosen type's list only, is the record posted, and the modal closes |
| StartCupRoute.Latest | src/app/api/orders/start-cup/route.ts:16-23 | none exactly when no row has the key; otherwise a row of the key that no other row of the key outranks in descending updated_at with nulls first, and the first such row in storage order |
| StartCupRoute.Query | src/app/api/orders/start-cup/route.ts:4-30 | 400 exactly when date, shift or drink_type is missing or empty; otherwise null when no row matches the three parameters, else a matching row that no other row of its key outranks |
| StartCupRoute.PostRows | src/app/api/orders/start-cup/route.ts:42-68 | if the key has a row, the table keeps its length and only rows of that key may change; otherwise exactly one row with the posted fields is appended; no row's key changes |
| StartCupRoute.PostKeepsUnique | src/app/api/orders/start-cup/route.ts:42-68 | starting from at most one row per key, a POST never creates a second row for a key |
| StartCupRoute.PostThenGet | src/app/api/orders/start-cup/route.ts:16-68 | with one row per key, the row GET returns for the posted key right after a POST holds the posted count |
| StartCupRoute.ZeroCountAccepted | src/app/api/orders/start-cup/route.ts:38 | a count of 0 passes the validation, because only an undefined count is refused |
| StartCupRoute.OnlyMatch | src/app/api/orders/start-cup/route.ts:16-23 | with one row per key, the query returns the key's only row |
| StartCupRoute.StartCupTable.Post | src/app/api/orders/start-cup/route.ts:32-75 | 400 exactly when the body is refused, leaving the table unchanged; Updated exactly when the key already has a row; in both accepted cases the table becomes PostRows of the old table |
| SalesReportsRoute.PatchIdempotent | src/app/api/orders/sales_reports/route.ts:19-32 | upserting the same payload twice leaves the same row as upserting it once |
| SalesReportsRoute.PatchOverwrites | src/app/api/orders/sales_reports/route.ts:19-32 | of two payloads that name the same columns, the later one decides the row |
| SalesReportsRoute.PostPatch | src/app/api/orders/sales_reports/route.ts:22-30 | the POST writes diff, note (an absent or null note becomes "") and updated_at = now, and no other column |
| SalesReportsRoute.ZeroDiffAccepted | src/app/api/orders/sales_reports/route.ts:9 | a diff of 0 passes the validation, because only an undefined or null diff is refused |
| SalesReportsRoute.ReportTable.Upsert | src/app/api/orders/sales_reports/route.ts:21-32 | the row of (date, shift) takes the payload's columns and every other key's row is untouched |
| SalesReportsRoute.ReportTable.Post | src/app/api/orders/sales_reports/route.ts:4-48 | 400 with the table unchanged exactly when date or shift is falsy or diff is missing or null; otherwise 200 and the key's row is upserted with the POST payload |
| OrdersRoute.Convert | src/app/api/orders/route.ts:31-46 | drinkType and tableNumber take the snake_case column unless it is null or missing, then the camelCase one; paymentMethod and createdAt take camelCase, then snake_case, then lower case; id, status, menu and price are copied |
| OrdersRoute.LastSecondIsLost | src/app/api/orders/route.ts:17-19 | as written, an order created in the last second before a JST midnight (after 23:59:59.000) is on that JST day but inside no day's window |
| OrdersRoute.InWindowIsJstDay | src/app/api/orders/route.ts:16-20 | with the intended half-open window, an instant is in a day's window exactly when it falls on that JST day |
| OrdersRoute.AsWrittenWithinDay | src/app/api/orders/route.ts:16-20 | an instant in a day's window as written falls on that JST day; an instant of that JST day is in the window unless it comes after 23:59:59.000 |
| OrdersRoute.Select | src/app/api/orders/route.ts:11-20 | keeps exactly the rows created from the day's midnight to its last whole second (23:59:59 JST), both included, or every row when no day is given |
| OrdersRoute.NewRow | src/app/api/orders/route.ts:65-79 | the stored row is pending, stamped with the current instant, under the next id, and carries the posted price |
| OrdersRoute.AppendKeepsValid | src/app/api/orders/route.ts:81 | appending a row with the next id keeps ids unique and below the next id |
| OrdersRoute.WithStatus | src/app/api/orders/route.ts:106 | the rows keep their number and order; a row with the id keeps its id, instant and other columns and gets the new status; every other row is unchanged |
| OrdersRoute.OrderTable.constructor | src/app/api/orders/route.ts:11-13 | the table starts empty with its id invariant |
| OrdersRoute.OrderTable.Get | src/app/api/orders/route.ts:6-49 | a date that names no calendar day fails with 500; otherwise 200 with the rows inside the inclusive 00:00:00–23:59:59 JST window (all rows without a date), sorted newest first and converted |
| OrdersRoute.OrderTable.Post | src/app/api/orders/route.ts:55-92 | 400 with nothing stored exactly when the menu or table number is falsy; otherwise 200 and exactly one new pending row is appended; the id invariant is kept |
| OrdersRoute.OrderTable.Patch | src/app/api/orders/route.ts:97-116 | 400 when id is not a number or status is not a string; 500 when no row has the id; otherwise 200 and only the status of the rows with that id changes, to any string |
| OrdersRoute.GetIsNewestFirst | src/app/api/orders/route.ts:14 | GET's list is in non-increasing order of creation instant |
| OrdersRoute.GetKeepsTheDay | src/app/api/orders/route.ts:16-22 | with a date, an order is listed exactly when it was created from that JST day's midnight to its last whole second, both included; every listed order was created on that JST day |
| NewOrderForm.Price | src/app/components/NewOrderForm.tsx:88 | the premium coffee costs 500 and every other menu 300 |
| NewOrderForm.PremiumIsHot | src/app/components/NewOrderForm.tsx:77-88 | a menu shown for the selected drink type costs 500 only when the type is hot |
| NewOrderForm.NextTableNumber | src/app/components/NewOrderForm.tsx:58-64 | a key press appends its digit or leaves the field as it was; a field of 3 characters is kept; the field never exceeds 3 digits or the value 300; a digit is appended exactly when the result stays within those bounds |
| NewOrderForm.NextCashAmount | src/app/components/NewOrderForm.tsx:69-73 | a key press appends its digit unless the field already holds 6 characters, so the field stays at most 6 digits |
| NewOrderForm.KeypadReachesEveryTable | src/app/components/NewOrderForm.tsx:58-66 | every table number of at most 3 digits and value at most 300 can be typed on the keypad from the empty field |
| NewOrderForm.TypeDigitsSnoc | src/app/components/NewOrderForm.tsx:58-64 | typing one more key applies one more key press to the field typed so far |
| NewOrderForm.AcceptedFormPassesServer | src/app/components/NewOrderForm.tsx:103-142 | a form that passes its own checks posts a body the POST handler of /api/orders accepts |
| NewOrderForm.AcceptedBody | src/app/components/NewOrderForm.tsx:106-135 | an accepted body carries a table number in 1..300 and the menu's price, and a non-empty cash amount whenever a cash payment was already received |
| NewOrderForm.CashKeyIffEntered | src/app/components/NewOrderForm.tsx:133 | the body has a cash_amount key exactly when the cash field is non-empty |
| NewOrderForm.KeypadTableRejects | src/app/components/NewOrderForm.tsx:106-110 | on a field the keypad filled, the table-number check refuses exactly the empty field and the all-zero ones |
| NewOrderForm.OrderForm.constructor | src/app/components/NewOrderForm.tsx:9-17 | the form starts as ice, no menu, milk and sugar 無し, and every text field empty |
| NewOrderForm.OrderForm.AddDigit | src/app/components/NewOrderForm.tsx:58-64 | only the table number changes, to its next keypad value |
| NewOrderForm.OrderForm.ClearNumber | src/app/components/NewOrderForm.tsx:66 | only the table number changes, to empty |
| NewOrderForm.OrderForm.AddCashDigit | src/app/components/NewOrderForm.tsx:69-73 | only the cash amount changes, to its next keypad value |
| NewOrderForm.OrderForm.ClearCashNumber | src/app/components/NewOrderForm.tsx:75 | only the cash amount changes, to empty |
| NewOrderForm.OrderForm.PickCashPreset | src/app/components/NewOrderForm.tsx:348-352 | only the cash amount changes, to the preset |
| NewOrderForm.OrderForm.SelectDrinkType | src/app/components/NewOrderForm.tsx:175-178 | switching the drink type clears the chosen menu and changes nothing else |
| NewOrderForm.OrderForm.SelectMenu | src/app/components/NewOrderForm.tsx:189-196 | only the menu changes, to one shown for the current drink type |
| NewOrderForm.OrderForm.SelectMilk | src/app/components/NewOrderForm.tsx:209-216 | only the milk option changes |
| NewOrderForm.OrderForm.SelectSugar | src/app/components/NewOrderForm.tsx:228-235 | only the sugar option changes |
| NewOrderForm.OrderForm.SelectPaymentMethod | src/app/components/NewOrderForm.tsx:308-315 | only the payment method changes |
| NewOrderForm.OrderForm.SelectReceiptStatus | src/app/components/NewOrderForm.tsx:327-334 | only the receipt status changes |
| NewOrderForm.OrderForm.SetNote | src/app/components/NewOrderForm.tsx:424 | only the note changes |
| NewOrderForm.OrderForm.HandleCancel | src/app/components/NewOrderForm.tsx:90-101 | every field returns to its initial value |
| NewOrderForm.OrderForm.HandleSubmit | src/app/components/NewOrderForm.tsx:103-135 | nothing is posted exactly when one of the three alerts fires; otherwise the form's body is posted, and the server accepts it |
| MenuItems.PriceIn | src/app/date/menuItems.ts:9-53 | none exactly when no entry has the name and type; otherwise the price of the first entry that has them |
| MenuItems.PricesAreTiers | src/app/date/menuItems.ts:10-52 | every entry costs 300 or 500, and an entry costs 500 exactly when it is the hot プレミアム |
| MenuItems.OneFiveHundred | src/app/date/menuItems.ts:51-52 | the only entry priced 500 is the last one |
| MenuItems.IceIsThreeHundred | src/app/date/menuItems.ts:10-31 | every ice drink on the menu costs 300 |
| MenuItems.CoffeeUnderBothTypes | src/app/date/menuItems.ts:11-34 | コーヒー is listed both as an ice and as a hot drink, at 300 each |
| MenuItems.PremiumHotOnly | src/app/date/menuItems.ts:51-52 | プレミアム is sold hot only, at 500 |
| MenuItems.NoIcePremium | src/app/date/menuItems.ts:11-52 | no ice entry is named プレミアム, so its ice price lookup finds nothing |
| MenuItems.PremiumIsLast | src/app/date/menuItems.ts:52 | プレミアム is the 38th entry and no other |
| MenuItems.FirstMatch | src/app/date/menuItems.ts:9-53 | the lookup returns the price of the first entry with the name and type |
| MenuItems.PairsUnique | src/app/date/menuItems.ts:9-53 | no (name, type) pair is listed twice |
| MenuItems.IceNamesDistinct | src/app/date/menuItems.ts:11-31 | the ice names are pairwise distinct |
| MenuItems.HotNamesDistinct | src/app/date/menuItems.ts:34-52 | the hot names are pairwise distinct |
| MonthlySales.EarlyIffBeforeCutoff | src/app/monthly-sales/page.tsx:136 | an order is early-shift exactly when less than 16 h 51 min of its JST day have passed |
| MonthlySales.Monthly | src/app/monthly-sales/page.tsx:107-150 | twelve buckets, one per month (labels, counts, days and cash: MonthlyLabels, MonthlyCounts, MonthlyDays, MonthlyCash) |
| MonthlySales.MonthlyStep | src/app/monthly-sales/page.tsx:122-150 | one more order changes month m's bucket exactly when the order falls in JST month m of the year |
| MonthlySales.MonthlyLabels | src/app/monthly-sales/page.tsx:107-120 | month m's bucket is labelled with the year and m |
| MonthlySales.MonthlyCounts | src/app/monthly-sales/page.tsx:122-142 | month m's early and late counts are the numbers of its orders, of any status, before and after 16:51 JST, and together they count all of its orders |
| MonthlySales.MonthlyDays | src/app/monthly-sales/page.tsx:126-144 | month m's set of days holds exactly the JST dates of its orders |
| MonthlySales.MonthlyCash | src/app/monthly-sales/page.tsx:146-149 | month m's cash total is the price sum of its completed 現金 orders |
| MonthlySales.FetchMonthly | src/app/monthly-sales/page.tsx:107-150 | the loop's buckets are the monthly statistics of all fetched orders |
| MonthlySales.InitialDays | src/app/monthly-sales/page.tsx:201-207 | one zeroed entry per day of the month |
| MonthlySales.Daily | src/app/monthly-sales/page.tsx:201-228 | one entry per day of the month (its counts and cash: DailyCounts) |
| MonthlySales.DailyCounts | src/app/monthly-sales/page.tsx:209-228 | day d's entry counts the completed orders of that JST date before and after 16:51, and sums the prices of its 現金 ones |
| MonthlySales.DailyStep | src/app/monthly-sales/page.tsx:209-227 | one more order changes day d's entry exactly when it is a completed order of that JST date in the month |
| MonthlySales.NotCompletedIgnored | src/app/monthly-sales/page.tsx:210 | an order that is not completed never changes the daily view |
| MonthlySales.FetchDaily | src/app/monthly-sales/page.tsx:179-244 | one row per day of the month, in order, numbered from 1, holding that day's statistics, with the total equal to early plus late |
| ShiftSummaries.Normalize | src/app/api/orders/sales-report/generate/route.ts:28-34 | 現金 is cash, 4円 or 4パチ is 4円, 1円 or 1パチ is 1円, スロ is スロ, and exactly the other names are その他 (the same table appears at src/app/sales/page.tsx:55-61) |
| ShiftSummaries.Tally.Inc | src/app/api/orders/sales-report/generate/route.ts:79 | one counter goes up by one and every other counter is unchanged |
| ShiftSummaries.Tally.Plus | src/app/api/orders/sales-report/generate/route.ts:97-111 | each counter of the sum is the sum of the two counters |
| ShiftSummaries.InitSummary | src/app/api/orders/sales-report/generate/route.ts:17-26 | every counter and every sales figure starts at 0 |
| ShiftSummaries.Merge | src/app/api/orders/sales-report/generate/route.ts:92-113 | every counter, every tier cell and every sales figure of the day total is the sum of the two shifts' (with MergeSummaries: the summary of all the orders) |
| ShiftSummaries.TierOf | src/app/api/orders/sales-report/generate/route.ts:77-85 | the generator puts an order in the 300 tier exactly when priced 300 and not その他, in the 500 tier exactly when priced 500 and not その他, and in none otherwise; the sales page (src/app/sales/page.tsx:288-295) puts exactly the 300-yen orders in the 300 tier and all others in the 500 tier |
| ShiftSummaries.Add | src/app/api/orders/sales-report/generate/route.ts:69-89 | one more order adds one to total and its cash price to sales, and its cash price to the tier sales exactly when the tier rule puts it in a tier |
| ShiftSummaries.SummaryOf | src/app/api/orders/sales-report/generate/route.ts:63-90 | the total of a summary is the number of its orders (every other counter: SummaryCounts) |
| ShiftSummaries.SummaryCounts | src/app/api/orders/sales-report/generate/route.ts:63-90 | total counts the orders; ice and hot count those drink types; each tier cell counts the orders the tier rule puts there with that payment kind; sales, sales300 and sales500 sum the cash prices, overall and per tier |
| ShiftSummaries.SummaryDrinkCounts | src/app/api/orders/sales-report/generate/route.ts:69-73 | total is the number of orders, ice and hot the numbers of orders of those drink types |
| ShiftSummaries.SummarySales | src/app/api/orders/sales-report/generate/route.ts:75-89 | sales sums the prices of the 現金 orders, sales300 and sales500 those the tier rule puts in each tier |
| ShiftSummaries.SummaryCell | src/app/api/orders/sales-report/generate/route.ts:77-85 | for each payment kind, its cell in each tier counts the orders of that kind the tier rule puts in that tier |
| ShiftSummaries.AddCell | src/app/api/orders/sales-report/generate/route.ts:77-85 | one more order adds one to the cell of its payment kind in its tier and leaves every other cell unchanged |
| ShiftSummaries.AddCounters | src/app/api/orders/sales-report/generate/route.ts:72-73 | one more order adds one to total and one to the counter of its drink type only |
| ShiftSummaries.IcePlusHot | src/app/api/orders/sales-report/generate/route.ts:72-73 | when every order is ice or hot, ice plus hot equals total |
| ShiftSummaries.ServerOtherCellsZero | src/app/api/orders/sales-report/generate/route.ts:77-85 | the generator never counts その他 in either tier |
| ShiftSummaries.OffTierOrder | src/app/api/orders/sales-report/generate/route.ts:78-89 | for the generator, an order priced neither 300 nor 500 changes no tier cell and no tier sales, only total, drink count and sales |
| ShiftSummaries.ServerSalesSplit | src/app/api/orders/sales-report/generate/route.ts:77-89 | for the generator, when every price is 300 or 500, sales equals sales300 plus sales500 |
| ShiftSummaries.ClientSalesSplit | src/app/sales/page.tsx:289-296 | on the sales page, sales always equals sales300 plus sales500 |
| ShiftSummaries.ClientCellsCoverAll | src/app/sales/page.tsx:288-295 | on the sales page, every order lands in exactly one tier cell |
| ShiftSummaries.MergeAdd | src/app/api/orders/sales-report/generate/route.ts:92-113 | adding an order to either side of a merge is adding it to the merge |
| ShiftSummaries.MergeInit | src/app/api/orders/sales-report/generate/route.ts:92-113 | the empty summary is a unit of the merge |
| ShiftSummaries.MergeSummaries | src/app/api/orders/sales-report/generate/route.ts:92-113 | the merge of the summaries of two order lists is the summary of their concatenation |
| ShiftSummaries.SummaryOfSnoc | src/app/api/orders/sales-report/generate/route.ts:63-90 | summarising one more order is one more loop step |
| ShiftSummaries.MergePartition | src/app/api/orders/sales-report/generate/route.ts:70-113 | splitting orders by any test and merging the two summaries gives the summary of all of them |
| SalesReportGenerate.Cutoff | src/app/api/orders/sales-report/generate/route.ts:58 | a valid date's cutoff is 16:50 JST on that JST day; an invalid date gives no cutoff |
| SalesReportGenerate.IsEarly | src/app/api/orders/sales-report/generate/route.ts:69-70 | an order goes to the early shift when created at or before the cutoff, and never when the date gave no cutoff (NoneEarly) |
| SalesReportGenerate.Aggregate | src/app/api/orders/sales-report/generate/route.ts:60-90 | the early summary is the summary of the orders created at or before the cutoff, the late one that of all the others |
| SalesReportGenerate.AggregateStep | src/app/api/orders/sales-report/generate/route.ts:69-70 | each order goes to exactly one of the two summaries |
| SalesReportGenerate.ShiftsPartitionDay | src/app/api/orders/sales-report/generate/route.ts:70-113 | the early and late totals add up to the number of orders, and the total row is the summary of every order |
| SalesReportGenerate.InvalidDateAllLate | src/app/api/orders/sales-report/generate/route.ts:58-70 | with an unparseable date every order counts as late |
| SalesReportGenerate.NoneEarly | src/app/api/orders/sales-report/generate/route.ts:70 | without a cutoff no order is early |
| SalesReportGenerate.Generate | src/app/api/orders/sales-report/generate/route.ts:36-138 | a missing or empty date gives 400 and writes nothing; otherwise 200, and the early, late and total rows of the date are upserted with their summaries, diff 無し and their notes, and no other row changes |
| SalesPage.FetchStep | src/app/sales/page.tsx:281-297 | one more order changes the early summary exactly when it is completed and at or before the cutoff, and the late one exactly when it is completed and after it |
| SalesPage.FetchSales | src/app/sales/page.tsx:273-301 | the early summary is that of the completed orders at or before the cutoff, the late one that of the completed orders after it |
| SalesPage.FilterCompleted | src/app/sales/page.tsx:282-284 | the early orders are the completed ones at or before the cutoff, and the late ones are the completed ones after it |
| SalesPage.ShiftsPartitionCompleted | src/app/sales/page.tsx:418-441 | the total card, early merged with late, is the summary of all completed orders |
| SalesPage.NonCompletedIgnored | src/app/sales/page.tsx:282 | an order that is not completed changes neither shift |
| SalesPage.BaseCashIsSales | src/app/sales/page.tsx:317-320 | when every price is 300 or 500, the expected cash equals the shift's cash sales |
| SalesPage.AdjustedSales | src/app/sales/page.tsx:317-321 | adjusted_sales minus the difference is 300 per cash order in the 300 tier plus 500 per cash order in the other tier, for the chosen shift |
| SalesPage.ReportDiff | src/app/sales/page.tsx:499 | the difference field is the parsed integer, or 0 when the text does not parse |
| SalesPage.OnReportSubmit | src/app/sales/page.tsx:316-338 | the report row of (date, shift) gets diff, note or null, staff or null and adjusted_sales, and no other row changes |
| SalesPage.CountSum | src/app/sales/page.tsx:71-72 | the 合計 column adds the 現金, 4円, 1円 and スロ cells and leaves その他 out |
| SalesPage.CountSumsCoverNamedMethods | src/app/sales/page.tsx:71-72 | the two tables' 合計 columns together count every order except the その他 ones |
| SalesPage.FetchStartCup | src/app/sales/page.tsx:249-263 | the loop's result is the fold of the rows from all zeros, or the thrown error when a row names an unknown shift |
| SalesPage.NoneStays | src/app/sales/page.tsx:260-262 | once a row throws, the whole load throws |
| SalesPage.StartCupIsLastCount | src/app/sales/page.tsx:256-262 | each start-cup value is the count of the last row naming its shift and drink, null read as 0, and 0 when no row names them |
| SalesPage.CalcRemaining | src/app/sales/page.tsx:376-377 | remaining cups are the start count less what the shift sold, and 0 when more was sold; never negative |
| SalesPage.TotalStartCup | src/app/sales/page.tsx:418-421 | the total card's start cups add the early and late counts per drink |
| JstDate.YearDigits | src/app/utils/date.ts:5 | a year from 1000 to 9999 prints as exactly four digits that read back as the year |
| JstDate.FormatJst | src/app/utils/date.ts:2-11 | `YYYY-MM-DD HH:mm` of the JST wall clock, with the year unpadded; its shape and round trip are FormatJstShape and FormatJstSameMinute |
| JstDate.FormatJstShape | src/app/utils/date.ts:2-11 | for four-digit years the text is 16 characters shaped YYYY-MM-DD HH:mm, and its fields read back as the JST year, month 1..12, day, hour 0..23 and minute 0..59 of the instant (the order list page keeps an identical copy at src/app/order-list/page.tsx:28-37) |
| JstDate.JstMinuteFields | src/app/utils/date.ts:4-9 | the JST minute number is built from the JST day, hour and minute |
| JstDate.MinuteSplit | src/app/utils/date.ts:7-9 | day, hour and minute are recovered from the minute number |
| JstDate.FormatJstSameMinute | src/app/utils/date.ts:2-11 | two instants with four-digit years render to the same text exactly when they fall in the same JST minute |
| JstDate.SameTextSameMinute | src/app/utils/date.ts:2-11 | equal renderings of two instants with four-digit years mean the same JST minute |
| JstDate.SameMinuteSameText | src/app/utils/date.ts:2-11 | two instants in the same JST minute render to the same text, whatever their seconds and milliseconds |
| RankingPage.Filtered | src/app/ranking/page.tsx:62-68 | keeps exactly the completed orders whose createdAt prefix (10 characters daily, 7 monthly) equals the selected date or month; with FilteredSnoc, in their order and with their multiplicity |
| RankingPage.FilteredSnoc | src/app/ranking/page.tsx:62-68 | filtering a list with one more order at the end gives the filtered list, followed by that order when it is selected |
| RankingPage.IndexOf | src/app/ranking/page.tsx:74 | the position of the menu's counter, or -1 exactly when no counter has that menu |
| RankingPage.AddMenuIndex | src/app/ranking/page.tsx:74 | counting one more order of a menu creates its counter if missing and leaves the positions of the others alone |
| RankingPage.AddMenuDistinct | src/app/ranking/page.tsx:74 | counting an order keeps one counter per menu |
| RankingPage.TallyDistinct | src/app/ranking/page.tsx:71-75 | the tally holds one counter per menu |
| RankingPage.TallyCounts | src/app/ranking/page.tsx:71-75 | a menu has a counter exactly when some order of the type has it, and then the counter is the number of such orders |
| RankingPage.IndexOfSameMenus | src/app/ranking/page.tsx:74 | two tallies with the same menus in the same places give the same positions |
| RankingPage.IndexOfAppend | src/app/ranking/page.tsx:74 | looking a menu up after appending a counter finds the earlier counter, else the new one, else nothing |
| RankingPage.TallyEntries | src/app/ranking/page.tsx:71-77 | every entry of the tally carries the menu's exact, positive number of orders |
| RankingPage.CountMenus | src/app/ranking/page.tsx:71-75 | the loop's counters are the tally of the orders of the type |
| RankingPage.ByCountConsistent | src/app/ranking/page.tsx:78 | the count comparator is a consistent order |
| RankingPage.Take | src/app/ranking/page.tsx:79 | at most n elements, a prefix of the list, all of it when it is short enough |
| RankingPage.Ranking | src/app/ranking/page.tsx:76-79 | the ranking has five entries, or every tally entry when there are fewer menus, and each is a tally entry (ordering and counts: RankingOrdered, RankingCounts) |
| RankingPage.RankingOrdered | src/app/ranking/page.tsx:76-79 | the ranking has at most 5 entries in non-increasing count order |
| RankingPage.RankingCounts | src/app/ranking/page.tsx:76-79 | every ranked entry is a tally entry whose count is the menu's exact, positive number of orders |
| RankingPage.RankingLeftOut | src/app/ranking/page.tsx:76-79 | a menu left out of the ranking means 5 menus are shown, none with a smaller count |
| RankingPage.IndexOfDay | src/app/ranking/page.tsx:91 | the position of the date's entry, or -1 exactly when there is none |
| RankingPage.OnDate | src/app/ranking/page.tsx:95 | keeps exactly the orders whose first 10 characters of createdAt are the date; with OnDateCons, in their order and with their multiplicity |
| RankingPage.OnDateCons | src/app/ranking/page.tsx:95 | the orders of a date from a list with one more order in front are that order, when it is of the date, followed by the orders of the date from the rest |
| RankingPage.TopMenu | src/app/ranking/page.tsx:96-101 | a day without orders has the empty top menu; a day with orders has a top menu ordered at least once that day (and, by TopMenuIsMaximal, at least as often as any other) |
| RankingPage.TopMenuFound | src/app/ranking/page.tsx:96-101 | a day's tally is empty exactly when the day has no orders, and every sorted entry is a menu ordered that day |
| RankingPage.TopMenuIsMaximal | src/app/ranking/page.tsx:94-101 | on a day with orders, no menu was ordered more often than the day's top menu |
| RankingPage.OccurrencesOfMember | src/app/ranking/page.tsx:96-99 | a menu ordered on the day has a positive count |
| RankingPage.DayCountsCount | src/app/ranking/page.tsx:88-93 | a date has an entry exactly when some order falls on it, and then its count is the number of those orders |
| RankingPage.IndexOfDaySameDates | src/app/ranking/page.tsx:91 | two lists with the same dates in the same places give the same positions |
| RankingPage.IndexOfDayAppend | src/app/ranking/page.tsx:91 | looking a date up after appending an entry finds the earlier entry, else the new one, else nothing |
| RankingPage.CountDays | src/app/ranking/page.tsx:88-93 | the loop's entries are the per-date counts of the orders |
| RankingPage.AssignTopMenus | src/app/ranking/page.tsx:94-102 | the loop gives each day the top menu of its own orders |
| RankingPage.ComputeSalesDays | src/app/ranking/page.tsx:86-104 | the computed list is the sales-day specification |
| RankingPage.SalesDays | src/app/ranking/page.tsx:86-104 | no sales days outside monthly mode; never more than five, nor more than the dates with orders (ordering and entries: SalesDaysOrdered, SalesDaysEntries) |
| RankingPage.SalesDaysOnlyMonthly | src/app/ranking/page.tsx:87 | outside monthly mode there are no sales days |
| RankingPage.SalesDaysOrdered | src/app/ranking/page.tsx:103 | at most 5 days, in non-increasing count order |
| RankingPage.DayCountEntry | src/app/ranking/page.tsx:88-93 | each per-date entry's count is the positive number of orders on that date |
| RankingPage.SalesDaysEntries | src/app/ranking/page.tsx:86-104 | each listed day's count is the positive number of its orders, and its top menu is the top menu of those orders |
| RankingPage.SalesDaysLeftOut | src/app/ranking/page.tsx:103 | a day with orders left off the list means 5 days are shown, none with a smaller count |
| OrderListPage.ToOrder | src/app/order-list/page.tsx:72-86 | identity, status, drink, menu and price are copied; a milk or note that is neither null nor missing is kept |
| OrderListPage.TextFieldsDefaulted | src/app/order-list/page.tsx:77-83 | none of milk, sugar, payment method, receipt status and note is null or missing after conversion, and each is empty exactly when it was null, missing or empty |
| OrderListPage.TableNumberText | src/app/order-list/page.tsx:79 | the table number is empty exactly when it was missing or empty; a null one reads "null" and a number its decimal text |
| OrderListPage.CashAmountText | src/app/order-list/page.tsx:82 | the cash amount stays absent exactly when it was missing; a string is kept |
| OrderListPage.Pending | src/app/order-list/page.tsx:115 | keeps exactly the orders whose status is pending |
| OrderListPage.PendingAppend | src/app/order-list/page.tsx:115 | the filter works element by element, so it keeps the original order |
| OrderListPage.ApiPending | src/app/order-list/page.tsx:115 | keeps exactly the fetched orders whose status is pending |
| OrderListPage.PendingOfConverted | src/app/order-list/page.tsx:72-115 | converting and then filtering lists the converted pending fetched orders |
| OrderListPage.Actions | src/app/order-list/page.tsx:214-233 | an order offers buttons exactly when it is pending, and each asks for completed or cancelled for the same id |
| OrderListPage.ListedOrdersActionable | src/app/order-list/page.tsx:214-233 | every listed order offers both buttons, one per final status |
| CompletedOrdersPage.DateOnlyIsPrefix | src/app/completed-orders/page.tsx:27-37 | the date text is the first 10 characters of the date-and-time text |
| CompletedOrdersPage.FormatDateIsJst | src/app/completed-orders/page.tsx:27-31 | for four-digit JST years the page's date-and-time text equals the shared JST formatter's |
| CompletedOrdersPage.DateOnlyIsJstDay | src/app/completed-orders/page.tsx:33-37 | for years 0 to 9999 the date text is the key of the instant's JST day |
| CompletedOrdersPage.ToOrder | src/app/completed-orders/page.tsx:63-77 | the drink type is ice exactly when drink_type is "ice", and hot otherwise; the other fields are copied |
| CompletedOrdersPage.Converted | src/app/completed-orders/page.tsx:62-78 | keeps exactly the converted rows whose status is completed or cancelled |
| CompletedOrdersPage.Shown | src/app/completed-orders/page.tsx:86-88 | an empty filter shows every order; otherwise exactly the orders whose JST date text is the filter |
| CompletedOrdersPage.OnDate | src/app/completed-orders/page.tsx:87 | keeps exactly the orders whose date text is the filter |
| CompletedOrdersPage.ConvertedNewestFirst | src/app/completed-orders/page.tsx:52-78 | the conversion keeps the newest-first order of the fetched rows |
| CompletedOrdersPage.ShownNewestFirst | src/app/completed-orders/page.tsx:86-88 | the date filter keeps the list newest first |
| CompletedOrdersPage.OnDateNewestFirst | src/app/completed-orders/page.tsx:87 | filtering by date keeps the list newest first |
| CompletedOrdersPage.FormatDate | src/app/completed-orders/page.tsx:27-31 | a text of 10 to 16 characters (the JST date and minute: FormatDateIsJst) |
| CompletedOrdersPage.FormatDateOnly | src/app/completed-orders/page.tsx:33-37 | a text of exactly 10 characters (the JST day's key: DateOnlyIsJstDay) |

## Left out

- Supabase and `fs` I/O, their failures and every 500 response they lead to. The store is a field
  and every read or write succeeds.
- SQL filtering done by the store on fetch (date ranges, status filters, `order by ... limit`).
  Fetched rows are inputs, taken as returned. The exceptions are the orders GET date window and
  its ordering, which are modelled (`OrdersRoute`).
- The sales-report generator's fetch window and its completed-status filter are SQL. The
  aggregation takes the fetched orders as they are returned.
- Parsing of date strings and time zones (`new Date(str)`, `dayjs.tz`, `toISOString`). Parsed
  instants and days are inputs. The local time zone of pages that use `getHours`/`getDate` is
  taken to be JST; Japan has no daylight saving time.
- The 16:50 cutoff of the sales page is built from the selected date in local time. It is a
  parameter of the aggregation.
- JavaScript numbers are modelled as integers. Fractional prices, counts and amounts, `NaN` from
  arithmetic on them, and 53-bit precision are not modelled.
- CupInventoryPage.ModalCount: the modal's `Number(count)` also reads exponent forms (`1e2`),
  hexadecimal, binary and octal literals (`0x10`, `0b1`, `0o7`) and `Infinity`. The model reads
  only an optionally signed run of decimal digits after trimming and refuses the rest, so such
  entries are not saved.
- Floating-point averages and `toFixed` on the monthly page.
- The `localStorage` fallback and save on the sales page.
- The sales page's start-cup keypad (`onKeypadConfirm`). It upserts without a conflict target; only
  the GET and POST of the start-cup route are modelled.
- The comparator's behaviour on unparseable dates in the cup-inventory sort. `CupInventoryPage`
  states the order only when every non-sentinel date parses.
- The race between the existence check and the write in auto-close. The model is sequential.
- JSX rendering, modals, charts, navigation, `console.log` and `alert`. Action buttons are modelled
  only as the status requests they send.
- Null versus absent ledger fields. Both are a missing value (`None` / `Undefined`).
- JavaScript object key order for integer-like keys, and the order among equal counts in the
  ranking. Both ranking lists are stated up to their counts.
- The database default that start-cup inserts rely on is a parameter of the insert.
- The summary route assumes well-formed ledger records, as the source does.
- `src/app/components/CalendarModal.tsx`, `src/app/components/OrderList.tsx`,
  `src/app/new-order/page.tsx`, `src/app/page.tsx`, `src/app/utils/fetchSalesReport.ts`,
  `src/app/types/order.ts` and `next.config.ts` are not part of this model (UI, a fetch wrapper,
  types and configuration).
- AvailableRoute.WeekKeysDiffer: "the target day is never used as the previous record" is stated as
  two lemmas: `PreviousInWeek` (the record found is dated one of the seven preceding days) and
  `WeekKeysDiffer` (none of those keys is the target's own key). The second holds only for days in
  four-digit years, where keys are fixed-width.
- AutoClose.LocalKeyIsDayKey: the `${yyyy}-${mm}-${dd}` key equals the ISO key only for four-digit
  years. This is the `FourDigitDay` requirement on it and on the other key lemmas.

## Findings

| source | as written | input that shows it | evidently intended | confidence | as-written member | corrected member |
|---|---|---|---|---|---|---|
| src/app/api/orders/route.ts:17-19 | the GET date window is `[date T00:00:00+09:00, date T23:59:59+09:00]`, so its end is a whole second before midnight JST | an order created at 23:59:59.500 JST on the requested date is not returned for that date, nor for the next | every order whose JST calendar date is the requested date (the half-open window `[00:00, next day 00:00)` JST) | not executed | OrdersRoute.LastSecondIsLost | OrdersRoute.InWindowIsJstDay |

The GET handler's model (`OrdersRoute.Select`, `OrdersRoute.OrderTable.Get`) keeps the window as
written. `OrdersRoute.InWindow` is the intended window, and `OrdersRoute.InWindowIsJstDay` proves
that it selects exactly the orders of the JST day.
