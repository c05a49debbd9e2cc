# Expiry Fetcher: a Dafny model of its refresh logic

Expiry Fetcher is a Cordova app. It scrapes a commodity exchange's website for
option-chain data and shows two commodities side by side. For each one it shows
call (CE) and put (PE) open interest, call and put volume, and the two
call-minus-put deltas, coloured green or red. This project models the logic
under the DOM and plugin glue and proves properties about it:

- `Selection` (selection.dfy): the active selection `activeCommodities`.
  Toggling a symbol removes it if it is present. Otherwise it is
  appended, and when two are already selected the oldest is evicted first.
  The module also models the tick body `fetchCurrentData`. In a
  duplicate-free selection it makes at most one market-data request per
  slot, one for each slot that has a symbol and an expiry value.
- `MarketData` (market_data.dfy): `fetchAndCalculateTotal` adds up four fields
  over the option-chain rows. `updateMarketData` derives the deltas and the
  colours, and fills the slot's panel.
- `ExpiryCatalog` (expiry_catalog.dfy): the two `reduce` calls that group the
  exchange's `vTick` items into a symbol → expiry-dates catalog, in app.js and
  in background.js. It also models what each caller writes to storage or
  notifies.
- `DailySchedule` (daily_schedule.dfy): background.js `scheduleDailyFetch`
  waits until the next 08:00:00.000 local time, refreshes the catalog, and
  schedules itself again.
- `Network` (network.dfy): `NetworkService.fetchWithRetry`, a
  retry with a countdown budget and a fixed 2000 ms wait.
- `AutoFetch` (auto_fetch.dfy): the auto-fetch interval handle. It is driven
  by `startAutoDataFetch` and `stopAutoDataFetch`, by the ON/OFF switch, and
  by the `online`, `offline` and `resume` handlers of index.js.
- `Timestamp` (timestamp.dfy): `getFormattedTimestamp`.
- `Wrappers` (wrappers.dfy): `Option` (JavaScript null/undefined) and `Result`
  (a value or a thrown error).

The form of each file follows the source:

- State that the source updates in place is a class with the same state.
  These are `ActiveSelection`, `AutoFetchController` and `DailyFetcher`.
  Each of their methods is specified by a pure function of the old state
  (`Toggled`, `Start`, `Stop`, `OnOnline`, …). The properties are proved as
  lemmas about those functions.
- Loops of the source are methods with loops. These are the `forEach`
  summation, the two `reduce` groupings and `fetchCurrentData`. Each loop is
  proved against an independent specification function (`Aggregate`,
  `CatalogOf`, `RequestsUpTo`).
- Code that is only expressions and recursion is a function: the deltas and
  colours, the next-run delay and the retry.

Several behaviours of the code are easy to misread. The model follows the code:

- A retry budget of 3 makes 4 attempts (one plus three retries), not 3.
- A body that fails to parse is retried like a bad status. It is not
  surfaced at once as a parse error.
- A failed market-data update leaves every figure reading "Loading...". It
  does not keep the last good values on screen, but each figure keeps the
  green or red of the last good update.
- After an `offline` event an `online` event does not restart fetching,
  because `handleOnline` restarts only when a handle is set.
- app.js fetches market data with a single plain request and no retry.
  `NetworkService` is not called by it.
- A catalog page without the `vTick` marker gives no catalog. It is not a
  distinct extraction error.

Inputs that the program gets from the outside are parameters:

- the network's replies: one reply per request, and a function from
  attempt number to reply for the retrying fetch;
- the parsed exchange page;
- the clock, as milliseconds of local time;
- the contents of local storage;
- the values of the expiry dropdowns.

Storage writes and notifications are returned as values, or kept as fields
of the classes.

## Model

| member | source | states |
|---|---|---|
| Selection.Without | www/js/app.js:160 | the filtered list holds exactly the entries different from the symbol, and is no longer |
| Selection.Toggled | www/js/app.js:159-167 | after a toggle the symbol is selected iff it was not before, and no other symbol is added |
| Selection.WithoutSingle | www/js/app.js:160 | filtering a duplicate-free list removes just the one occurrence and closes the gap |
| Selection.WithoutAbsent | www/js/app.js:160 | filtering out a symbol that is not there leaves the list as it was |
| Selection.WithoutNoDuplicates | www/js/app.js:160 | filtering keeps a duplicate-free list duplicate-free |
| Selection.TogglePresent | www/js/app.js:159-160 | toggling a present symbol removes it and keeps the other symbols in their original order |
| Selection.ToggleAbsentWithRoom | www/js/app.js:159-163 | toggling an absent symbol into a selection of fewer than 2 appends it at the end, and toggling it again restores the selection |
| Selection.ToggleAbsentWhenFull | www/js/app.js:164-166 | toggling an absent symbol into a full selection drops the oldest entry and appends the new one; the length is unchanged and re-toggling does not bring the evicted entry back |
| Selection.DefaultToggledWithGold | www/js/app.js:3 | the default [NATURALGAS, CRUDEOIL] toggled with GOLD gives [CRUDEOIL, GOLD] |
| Selection.ToggleKeepsWellFormed | www/js/app.js:155-168 | from a selection of at most 2 entries without duplicates, every toggle keeps both properties |
| Selection.ActiveSelection.constructor | www/js/app.js:3 | the selection starts as the default pair, which is well formed |
| Selection.ActiveSelection.Toggle | www/js/app.js:155-170 | the new selection is the toggled old one, it is written to storage, and well-formedness is kept |
| Selection.IndexOf | www/js/app.js:105 | the index found holds the symbol and no earlier index does |
| Selection.FetchCurrentData | www/js/app.js:101-115 | the requests of a tick are those of the specification `RequestsUpTo`: one per non-empty symbol whose first-occurrence slot has an expiry value |
| Selection.RequestsUseOwnSlot | www/js/app.js:101-115 | in a duplicate-free selection each request uses the slot of its own position and that slot's expiry, there are no more requests than entries, and no two requests share a slot |
| Selection.FilledSlotIsRequested | www/js/app.js:103-113 | every slot with a symbol and an expiry value is requested |
| Selection.DuplicateSharesFirstSlot | www/js/app.js:105-106 | a duplicated symbol sends both requests to the first slot |
| MarketData.CalculateTotals | www/js/app.js:242-252 | the four running totals equal the sums over all rows, an absent field counting 0 |
| MarketData.FetchAndCalculateTotal | www/js/app.js:223-258 | the result is null exactly when commodity or expiry is empty, the request throws, the status is not ok, or the body, `d` or `d.Data` is missing; otherwise it is the totals of the rows |
| MarketData.AggregateEmpty | www/js/app.js:242-252 | an empty row list yields four zeros |
| MarketData.FieldSumAppend | www/js/app.js:245-250 | a total over two row lists is the sum of the two totals |
| MarketData.AbsentFieldAddsNothing | www/js/app.js:246-249 | a row whose field is absent or zero adds nothing to that total, wherever it is |
| MarketData.FieldSumZero | www/js/app.js:245-250 | a total is zero iff every row contributes zero to it |
| MarketData.FieldSumBounds | www/js/app.js:245-250 | a total is at least each row's contribution |
| MarketData.Compare | www/js/app.js:280-291 | each delta is CE − PE; in each pair exactly one side is green, PE green iff PE > CE; each delta is green iff ≥ 0, the same colour as its CE side |
| MarketData.TieGoesToCall | www/js/app.js:286-287 | on a tie CE is green, PE red, and the delta is 0 and green |
| MarketData.SignExamples | www/js/app.js:280-290 | CE 100 / PE 40 gives +60 green; CE 40 / PE 100 gives −60 red |
| MarketData.UpdatePanel | www/js/app.js:269-294 | a null result leaves all six figures "Loading..." in the colour class each had before, and the old last-updated line; a result shows each of the four totals and both deltas with the colour `Compare` gives it, and the new timestamp |
| MarketData.FailureKeepsLastColours | www/js/app.js:269-294 | a failed update after a successful one leaves every figure "Loading..." in the colour the successful update gave it, under that update's timestamp |
| ExpiryCatalog.SymbolsOfMembership | www/js/app.js:69-73 | a symbol is a catalog key iff some row carries it |
| ExpiryCatalog.SymbolsOfDistinct | www/js/app.js:69-73 | no symbol is a key twice |
| ExpiryCatalog.CatalogStep | www/js/app.js:70-71 | one more row appends its date to its symbol's list, adding the key at the end when it is new |
| ExpiryCatalog.GroupCreatingMissing | www/js/app.js:69-73 | the `if (!acc[s]) acc[s] = []` reduce builds exactly the catalog `CatalogOf(rows)` |
| ExpiryCatalog.GroupDefaulting | www/js/background.js:43-47 | the reduce that assigns `acc[s]` its old list or a new one builds exactly the catalog `CatalogOf(rows)` |
| ExpiryCatalog.GroupingsAgree | www/js/background.js:43-47 | both idioms produce the same catalog for every input list |
| ExpiryCatalog.DatesOfAppend | www/js/app.js:69-73 | each symbol's dates keep input order: grouping a concatenation concatenates the lists |
| ExpiryCatalog.CatalogShape | www/js/app.js:69-73 | keys are distinct, are exactly the map's domain, cover every row's symbol, and no list is empty |
| ExpiryCatalog.SumOfLengthsStep | www/js/app.js:71 | one more row lengthens the lists under a distinct key list by one iff its symbol is among the keys |
| ExpiryCatalog.CatalogCountsEveryRow | www/js/app.js:69-73 | the list lengths sum to the number of input rows |
| ExpiryCatalog.FetchExpiryData | www/js/app.js:57-82 | a catalog is returned and persisted, the same one, iff the marker was found and parsed |
| ExpiryCatalog.FetchExpiryDates | www/js/background.js:35-60 | the catalog is persisted and the notification scheduled iff the marker was found and parsed; otherwise nothing is written or notified |
| DailySchedule.DelayUntilNextRun | www/js/background.js:14-26 | 0 ≤ delay < 86,400,000 ms, now + delay is at 08:00:00.000, and no instant in between is |
| DailySchedule.DelayAtAndAfterEight | www/js/background.js:22-24 | at exactly 08:00:00.000 the delay is 0; at or before it the run is today, after it tomorrow |
| DailySchedule.RescheduleAfterFiring | www/js/background.js:28-32 | rescheduling from the callback some time after 08:00 lands on the next day's 08:00; with no time elapsed it lands on the same instant |
| DailySchedule.DailyFetcher.ScheduleDailyFetch | www/js/background.js:14-33 | one more pending timer, due at now plus the delay; no timer is cancelled and refreshes are unchanged |
| DailySchedule.DailyFetcher.Fire | www/js/background.js:28-32 | the fired timer is used up, the callback refreshes once, and its successor is due at now plus the delay, not earlier than now; the number of pending timers is unchanged |
| Network.Attempt | www/js/network.js:3-6 | an attempt succeeds iff the host answered with a 2xx status and a parsable body |
| Network.FetchWithRetry | www/js/network.js:2-14 | between 1 and r+1 attempts, one wait fewer than attempts; the result is the last attempt's; every earlier attempt failed; stopping within the budget means success |
| Network.FirstAttemptSucceeds | www/js/network.js:4-6 | an ok first attempt returns its parsed body with no wait |
| Network.AllAttemptsFail | www/js/network.js:8-12 | with every attempt failing, budget r gives r+1 attempts, r waits of 2000 ms, and the last attempt's error |
| Network.DefaultBudgetAllFail | www/js/network.js:2 | the default budget of 3 gives 4 attempts and 3 waits when all fail |
| Network.SucceedsAfterFailures | www/js/network.js:4-10 | k failures then a success, k ≤ r, return that body after k waits |
| Network.FailuresHandledAlike | www/js/network.js:5-10 | a bad status, an unreachable host and an unparsable body are retried alike: same attempts, waits and success |
| Network.GetOptionChainData | www/js/network.js:16-25 | the default-budget fetch makes at most 4 attempts and waits at most 6000 ms |
| AutoFetch.Start | www/js/app.js:85-92 | a start clears the old interval, installs a fresh one as the handle, fetches once, and leaves exactly one live interval |
| AutoFetch.Stop | www/js/app.js:94-99 | a stop leaves the handle null and no live interval; with no handle it changes nothing |
| AutoFetch.OnSwitch | www/js/app.js:25-31 | the stored flag afterwards reads enabled iff the switch is on, and every other key keeps its value; fetching runs afterwards iff the switch is on, with one immediate fetch when it is, and the timers stay valid |
| AutoFetch.OnOnline | www/js/index.js:32-35 | with a handle set, a restart with a fresh handle and one immediate fetch; with none, nothing changes |
| AutoFetch.OnOffline | www/js/index.js:37-40 | the handle is null afterwards, storage is unchanged and no fetch is made |
| AutoFetch.OnResume | www/js/index.js:42-47 | if the stored flag is not "false", a restart with a fresh handle and one immediate fetch; otherwise nothing changes |
| AutoFetch.Boot | www/js/app.js:17-35 | at start-up fetching runs iff the stored flag is not "false" |
| AutoFetch.StopIdempotent | www/js/app.js:94-99 | stopping twice is stopping once |
| AutoFetch.OfflineStops | www/js/index.js:37-40 | `handleOffline` always leaves the handle null and no interval, idempotently |
| AutoFetch.OnlineRestartsOnlyWhenRunning | www/js/index.js:32-35 | `handleOnline` restarts iff a handle is set, and otherwise changes nothing |
| AutoFetch.ResumeRestartsWhenEnabled | www/js/index.js:42-47 | `handleResume` restarts iff the stored flag is not "false"; a missing key restarts |
| AutoFetch.RunKeepsValid | www/js/app.js:85-99 | every sequence of events keeps at most one live interval, the one the handle names |
| AutoFetch.OnlineAfterOfflineStaysStopped | www/js/index.js:32-40 | after `offline`, any number of `online` events leaves fetching stopped and makes no fetch |
| AutoFetch.RestartKeepsOneInterval | www/js/app.js:85-92 | two starts leave only the second interval live, after two immediate fetches |
| AutoFetch.AutoFetchController.constructor | www/js/app.js:17-35 | the start-up state is `Boot` of the stored flags |
| AutoFetch.AutoFetchController.StartAutoDataFetch | www/js/app.js:85-92 | the new state is `Start` of the old one |
| AutoFetch.AutoFetchController.StopAutoDataFetch | www/js/app.js:94-99 | the new state is `Stop` of the old one |
| AutoFetch.AutoFetchController.HandleOnline | www/js/index.js:32-35 | the new state is `OnOnline` of the old one |
| AutoFetch.AutoFetchController.HandleOffline | www/js/index.js:37-40 | the new state is `OnOffline` of the old one, with a null handle |
| AutoFetch.AutoFetchController.HandleResume | www/js/index.js:42-47 | the new state is `OnResume` of the old one |
| AutoFetch.AutoFetchController.SwitchChanged | www/js/app.js:25-31 | the new state is `OnSwitch` of the old one |
| Timestamp.Pad2 | www/js/app.js:308-310 | a clock field becomes two decimal digits with that value |
| Timestamp.FormattedTimestamp | www/js/app.js:306-311 | the timestamp has 8 characters with colons at positions 2 and 5 |
| Timestamp.TimestampRoundTrip | www/js/app.js:306-311 | the hours, minutes and seconds can be read back from the timestamp |

## Left out

- The DOM is not modelled: `highlightTabs`, `loadCommodities`, `updateSelectedCommodities`, and `createCommodityButton`. Of `applyColor` only the green or red class it leaves on a figure is kept. `UpdatePanel` keeps each figure's text and that class. A missing element, which makes the source throw, is not modelled.
- `fetch`, `response.text()`, `response.json()`, `JSON.parse`/`JSON.stringify` and the `vTick` regular expression are opaque. They become the `Reply`, `Body` and `Page` inputs. Serialising the catalog and the selection to storage strings, and reading them back, is not modelled.
- Which asynchronous operations overlap is not modelled. Overlapping `updateMarketData` calls have no in-flight guard, and nothing orders their replies, so the model does not cover them.
- The periodic 10 s ticks of a live interval are not modelled. The model keeps the set of live intervals and the immediate fetch of each start.
- The selection restored from storage by `loadInitialData` (app.js:38-55) is not modelled, and neither are the fetches that `toggleCommodity` triggers afterwards (app.js:177-184).
- Real `Date` semantics (time zones, DST, month rollover) are not modelled. Time is milliseconds of local time with 24-hour days.
- DailySchedule.DelayUntilNextRun: `now` and `nextRun` are two separate `new Date()` readings in the source. The model takes both from one instant.
- The background-mode, notification and network-information plugins are not modelled. Only the fact that a notification is scheduled is kept.
- Network: a real wait is not modelled. The 2000 ms waits are counted and not timed.
- MarketData: totals are unbounded naturals. JavaScript numbers are doubles, exact only up to 2^53, so totals beyond that are not modelled.
- Row fields are optional naturals, so JavaScript `||` coercion of non-numeric fields (string concatenation, NaN) is not modelled.
- ExpiryCatalog: the accumulator is a map whose key order is insertion order. JavaScript objects put integer-like keys first and inherit keys such as `constructor` from their prototype. Tickers are plain words, so the model does not cover either case.
- www/js/nse.js is not part of this model. It is an alternative data source built from plugin callbacks and concurrent requests. www/js/config.js is not part of this model either; it holds constants that app.js does not read.
