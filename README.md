# Stock-market price-trigger engine, modelled in Dafny

This project models the server core of a stock-market watch service. Users
hold stocks in a portfolio and attach price triggers to them. A trigger can be
an upper limit, a lower limit, a "volume spike" or one of several kinds that
never fire. Each price update is cached, and while the exchange is open every
candidate trigger is evaluated. A trigger that fires is stamped with the
firing time, saved, and pushed to its owner over a websocket connection.

The model covers four parts of that core:

- `triggers.dfy` (module `Triggers`): the trigger service.
  - `EvaluateTrigger` is the evaluation switch.
  - Cooldown is modelled with Go's saturating `time.Since`.
  - The `Service` class holds the price cache and the per-trigger
    skip/fire/persist/notify loop of `UpdatePrice`.
  - It also covers how `CreateTrigger` and `DeleteTrigger` maintain a stock's
    list of trigger ids.
  - The loop is proved against pure folds:
    - `Dispose`, the fate of one candidate;
    - `Persist`, the trigger table after the loop;
    - `Alerts`, the notified evaluations;
    - `Deliveries`, the frames written.
    Lemmas then state what those folds guarantee.
- `market_websocket.dfy` (module `Websocket`): the market-hours calendar and
  the `MarketWebSocket` registry. The registry maps user ids to connections
  and supports register, clean-up, send and broadcast.
- `database.dfy` (module `Database`):
  - the store operations the trigger service calls;
  - adding and removing a stock;
  - the per-symbol dedup of `GetAllUniqueStocks`;
  - the in-place price roll-forward of `GetUserStocks`.
- `config.dfy` (module `Config`): environment lookup with defaults,
  validation of the four required variables, and the two settings getters.
- `models.dfy` and `wrappers.dfy` hold the stored records (`Stock`,
  `StockTrigger`) and the `Option`/`Result`/`Outcome` wrappers.

Abstractions:

- **Time** is whole minutes on a single clock. All `time.Now()` calls in one
  operation read the same `now`.
- **The market clock** is a `Clock` value: the UTC weekday, plus the local
  time of day for every time zone that loads. A zone missing from the map
  stands for a failing `time.LoadLocation`.
- **`LastTrigger`** is `Option<int>`. `None` is the zero time a new trigger is
  stored with. Go's `time.Since` of the zero time saturates at the largest
  `time.Duration`, about 153722867 minutes, and `ElapsedMinutes` reproduces
  that saturation.
- **The stores** are maps keyed by id. `stocksTable` is the raw STOCKS_TABLE
  value that every stocks operation checks. Scan and query answers are
  inputs.
- **Failures the model cannot see** are inputs:
  - failing item reads and writes come in as `Faults`;
  - failing connection writes come in as `unreachable`;
  - a failed upgrade is `None`;
  - a quote that did not arrive is an index missing from `quotes`.
- **Connections** are opaque ids. Every write attempt is appended to the
  registry's `written` log, together with whether it succeeded.
- **Prices, thresholds and multipliers** are `real`.

## Model

| member | source | states |
|---|---|---|
| Config.GetEnvOrDefault | server/internal/config/config.go:81-86 | The variable's value when set and non-empty, else the default; an empty variable counts as unset |
| Config.FirstUnset | server/internal/config/config.go:71-75 | The search finds nothing iff every value is non-empty; a hit names a variable whose value is empty |
| Config.Validate | server/internal/config/config.go:63-78 | Passes iff all four required fields are non-empty; a failure names one of the empty ones |
| Config.FromEnv | server/internal/config/config.go:39-52 | The fields with non-empty defaults are never empty; the JWT secret and the market-data key are empty exactly when their variables are unset or empty |
| Config.LoadConfig | server/internal/config/config.go:38-60 | Fails iff some required variable resolves to ""; the error names such a variable; on success the record is built from the environment |
| Config.LoadedFieldsFollowEnv | server/internal/config/config.go:39-52 | After a successful load every field equals its variable's value or its literal default; required fields are the non-empty environment values |
| Config.DefaultsWhenUnset | server/internal/config/config.go:40-51 | With nothing set: PORT 8080, region ap-south-1, tables Users/Stocks/Triggers, Redis localhost:6379, topic stock-market-alerts |
| Config.EmptyEnvironmentFails | server/internal/config/config.go:54-57 | An empty environment makes loading fail |
| Config.GetRedisConfig | server/internal/config/config.go:89-94 | Exactly the keys host and password, holding the stored Redis fields |
| Config.GetAWSConfig | server/internal/config/config.go:97-103 | Exactly the keys region, accessKeyID and secretAccessKey, holding the stored AWS fields |
| Websocket.IsMarketOpen | server/internal/websocket/market_websocket.go:56-83 | Open only for a known exchange, on a UTC weekday, with a loadable zone and local time strictly inside 09:30-16:00 |
| Websocket.MarketCalendar | server/internal/websocket/market_websocket.go:39-51 | Exactly NYSE and NASDAQ are known, both opening at 09:30 and closing at 16:00 in America/New_York |
| Websocket.NewYorkSessionIff | server/internal/websocket/market_websocket.go:76-82 | For NYSE and NASDAQ on a weekday with the zone loaded: open iff 570 < local minutes < 960 |
| Websocket.SessionBoundsExclusive | server/internal/websocket/market_websocket.go:82 | Exactly 09:30 and exactly 16:00 New York time are closed |
| Websocket.ClosedCases | server/internal/websocket/market_websocket.go:57-74 | Unknown exchange, Saturday or Sunday, or an unloadable zone: closed |
| Websocket.WriteToAll | server/internal/websocket/market_websocket.go:123-128 | Appends exactly one write of the message per registered user, to that user's connection, keeping earlier log entries |
| Websocket.MarketWebSocket.constructor | server/internal/websocket/market_websocket.go:29-31 | Starts with no clients, nothing written, nothing closed |
| Websocket.MarketWebSocket.HandleConnection | server/internal/websocket/market_websocket.go:86-96 | A failed upgrade registers nothing; otherwise the user's entry becomes the new connection and other users' entries are unchanged |
| Websocket.MarketWebSocket.CloseConnection | server/internal/websocket/market_websocket.go:99-104 | The user's entry is deleted by key, whatever connection it holds; the closing connection is closed |
| Websocket.MarketWebSocket.CloseOwnConnection | server/internal/websocket/market_websocket.go:99-104 | Corrected clean-up: the entry goes only if it still holds the closing connection; registered connections stay open |
| Websocket.MarketWebSocket.SendMessage | server/internal/websocket/market_websocket.go:132-142 | An unknown user gives "not connected" and writes nothing; otherwise exactly one write to that user's connection, with its result returned |
| Websocket.MarketWebSocket.BroadcastMessage | server/internal/websocket/market_websocket.go:119-129 | One write per registered connection, failures included; the registry is unchanged |
| Websocket.StaleCloseDropsLiveConnection | server/internal/websocket/market_websocket.go:93-104 | Reconnect, then the old connection ends: the live connection is unregistered and sending to the user fails |
| Websocket.StaleCloseKeepsLiveConnection | server/internal/websocket/market_websocket.go:93-104 | The same sequence with the corrected clean-up keeps the live connection registered and reachable |
| Database.GetStock | server/internal/database/stocks.go:191-218 | Succeeds iff STOCKS_TABLE is set, the read does not fail and the id exists; returns the stored stock |
| Database.GetTrigger | server/internal/database/triggers.go:142-164 | Succeeds iff the read does not fail and the id exists; returns the stored trigger |
| Database.Database.constructor | server/internal/database/database.go:13-17 | Empty tables, keyed consistently |
| Database.Database.AddStockToUser | server/internal/database/stocks.go:21-63 | Error without writing when STOCKS_TABLE is empty, the price does not parse or the write fails; otherwise a new stock with price = last price = the quote and both times now |
| Database.Database.RemoveStockFromUser | server/internal/database/stocks.go:128-147 | Error without writing when STOCKS_TABLE is empty or the delete fails; otherwise the holding is removed when it belongs to the user, and deleting a missing item succeeds with no change |
| Database.Database.UpdateStock | server/internal/database/stocks.go:221-243 | Error without writing when STOCKS_TABLE is empty or the write fails; otherwise stores the stock with only lastUpdated changed to now |
| Database.Database.CreateTrigger | server/internal/database/triggers.go:18-34 | Assigns the fresh id, created/updated times now and the zero last-trigger time; stores it unless the write fails |
| Database.Database.UpdateTrigger | server/internal/database/triggers.go:80-93 | Stamps updatedAt with now and overwrites the stored trigger, unless the write fails |
| Database.Database.DeleteTrigger | server/internal/database/triggers.go:96-104 | Removes the id, unless the write fails |
| Database.Dedup | server/internal/database/stocks.go:165-179 | Every kept stock is stored under its own symbol (at most one per symbol) |
| Database.DedupSymbols | server/internal/database/stocks.go:168-179 | The kept symbols are exactly the symbols of the items that unmarshalled |
| Database.DedupKeepsLatest | server/internal/database/stocks.go:175-178 | The kept stock of a symbol was added no earlier than any scanned item of that symbol |
| Database.DedupKeepsFirstLatest | server/internal/database/stocks.go:175-178 | The kept stock is a scanned item, and every earlier item of its symbol was added strictly earlier (ties keep the first) |
| Database.DedupIgnoresUndecodable | server/internal/database/stocks.go:170-173 | Items that failed to unmarshal do not affect the result |
| Database.GetAllUniqueStocks | server/internal/database/stocks.go:150-188 | Table-not-set and scan errors are returned; otherwise the list holds each kept stock exactly once |
| Database.RollForward | server/internal/database/stocks.go:99-102 | The old price becomes the last price, the quote becomes the price, lastUpdated becomes now; every other field is kept |
| Database.RollForwardPrices | server/internal/database/stocks.go:91-102 | In place: a quoted entry gets last price = old price, price = quote, lastUpdated = now; every other entry is unchanged |
| Database.GetUserStocks | server/internal/database/stocks.go:66-126 | Table-not-set and query errors are returned; otherwise same length and order, quoted stocks rolled forward (nothing else changed), the others untouched |
| Triggers.EvaluateTrigger | server/internal/features/triggers/service.go:109-139 | Carries the trigger's ids, the stock's symbol and exchange, the price and now; fires iff upper and price >= threshold, lower and price <= threshold, or volume spike and price > multiplier |
| Triggers.BoundaryPriceFires | server/internal/features/triggers/service.go:119-129 | A price equal to the threshold fires both limit kinds |
| Triggers.OtherKindsNeverFire | server/internal/features/triggers/service.go:119-136 | Every other trigger kind never fires |
| Triggers.ElapsedMinutes | server/internal/features/triggers/service.go:79 | Elapsed minutes since the last firing, saturated to the Duration range; the zero time gives the maximum |
| Triggers.NeverFiredNotCooling | server/internal/features/triggers/service.go:79 | A never-fired trigger is not blocked by any cooldown up to 153722867 minutes |
| Triggers.NoCooldownNotCooling | server/internal/features/triggers/service.go:79 | A zero or negative cooldown never blocks a trigger last fired at or before now |
| Triggers.CoolingDown | server/internal/features/triggers/service.go:79 | A trigger can be held back only by a positive cooldown or a last firing in the future |
| Triggers.CoolingDownIff | server/internal/features/triggers/service.go:79-81 | For a recent firing: blocked iff fewer than cooldown minutes have passed |
| Triggers.Dispose | server/internal/features/triggers/service.go:73-103 | Both directions: an active, non-cooling trigger whose stock lookup fails is skipped with that error; once the stock is read it is NotFired iff the evaluation does not fire, PersistFailed iff it fires and the save fails, Fired iff it fires and the save succeeds; every non-skip outcome implies a successful lookup; the saved record has lastTrigger = updatedAt = now |
| Triggers.FiredIsAlerted | server/internal/features/triggers/service.go:92-101 | Every firing whose save succeeded is handed to notification |
| Triggers.AlertedOwnerGetsFrame | server/internal/features/triggers/service.go:142-146 | A notified evaluation whose owner is connected gets a frame on the owner's connection |
| Triggers.QualifyingTriggerFires | server/internal/features/triggers/service.go:73-102 | An active, non-cooling trigger whose stock is read, whose condition holds and whose save succeeds is stored with lastTrigger = updatedAt = now, is notified, and its connected owner gets the frame |
| Triggers.SkipRules | server/internal/features/triggers/service.go:74-81 | Inactive triggers and cooling triggers are skipped before the stock is read |
| Triggers.PersistTouchesOnlyFired | server/internal/features/triggers/service.go:92-98 | A trigger id without a saved firing keeps its stored record |
| Triggers.PersistStoresLastFiring | server/internal/features/triggers/service.go:93-98 | A saved firing is what the table holds for that trigger afterwards |
| Triggers.AlertsAreSavedFirings | server/internal/features/triggers/service.go:92-102 | Every notified evaluation comes from a firing whose save succeeded |
| Triggers.UnsavedCandidateAddsNoAlert | server/internal/features/triggers/service.go:84-103 | A skipped, unfired or unsaved candidate adds no alert, and the later candidates' alerts all remain |
| Triggers.DeliveriesReachOwners | server/internal/features/triggers/service.go:142-146 | Each notification frame goes to the evaluation's owner on that owner's connection |
| Triggers.SkippedTriggerUntouched | server/internal/features/triggers/service.go:74-81 | A trigger that is inactive or cooling is neither rewritten nor notified |
| Triggers.CooldownScenario | server/internal/features/triggers/service_test.go:104-125 | A one-minute cooldown trigger fires at 2950 over 2900, is held back at the same minute, and fires again two minutes later |
| Triggers.RemoveFirst | server/internal/features/triggers/service.go:167-172 | A list without the id is returned as is; otherwise the result is one shorter |
| Triggers.IndexOf | server/internal/features/triggers/service.go:167-172 | The first position holding the id |
| Triggers.RemoveFirstCount | server/internal/features/triggers/service.go:167-172 | Removal takes away exactly one occurrence of the id, or none when it is absent |
| Triggers.RemoveFirstKeepsOrder | server/internal/features/triggers/service.go:169 | The other ids keep their order: those before the first occurrence, then those after |
| Triggers.AppendThenRemove | server/internal/features/triggers/service.go:167-172 | Removing an id that create appended to a list without it gives back the original list |
| Triggers.RemoveTriggerId | server/internal/features/triggers/service.go:167-172 | The search-and-splice loop with break removes the first occurrence of the id |
| Triggers.CacheKey | server/internal/features/triggers/service.go:56 | The key is the symbol, a colon, then the exchange |
| Triggers.CacheKeyInjective | server/internal/features/triggers/service.go:56 | For symbols without a colon, two instruments share a key iff they have the same symbol and exchange |
| Triggers.Service.constructor | server/internal/features/triggers/service.go:23-29 | Holds the given store and hub, and an empty price cache |
| Triggers.Service.CreateTrigger | server/internal/features/triggers/service.go:32-46 | A failed trigger write changes nothing; otherwise the trigger is stored and the id is appended to the end of its stock's list; stock lookup or write errors are returned and leave the trigger stored |
| Triggers.Service.NotifyTrigger | server/internal/features/triggers/service.go:142-150 | One write to the owner's connection when connected, none otherwise; errors are swallowed |
| Triggers.Service.CheckTrigger | server/internal/features/triggers/service.go:74-102 | One candidate: the table changes only by a saved firing, and a frame is written only for it |
| Triggers.Service.CheckTriggers | server/internal/features/triggers/service.go:73-103 | The loop leaves the table as the fold of saved firings, and the log as their notifications in order |
| Triggers.Service.UpdatePrice | server/internal/features/triggers/service.go:54-106 | The cache holds the price under "symbol:exchange" on every path; a closed market and a failed fetch change nothing else; otherwise it succeeds with the table and log given by the folds |
| Triggers.Service.DeleteTrigger | server/internal/features/triggers/service.go:153-181 | Lookup errors abort unchanged; the stock is rewritten without the first occurrence of the id; only after that succeeds is the trigger deleted; errors are returned |

## Findings

| source | as written | input that shows it | evidently intended | confidence | as-written member | corrected member |
|---|---|---|---|---|---|---|
| server/internal/websocket/market_websocket.go:99-104 | The deferred clean-up deletes the user's entry by key, whatever connection it holds | User "alice" connects on 1, reconnects on 2, then connection 1's read loop ends: "alice" is unregistered although 2 is open, so SendMessage reports not connected | Remove the entry only while it still holds the closing connection | medium, not executed | Websocket.StaleCloseDropsLiveConnection | Websocket.MarketWebSocket.CloseOwnConnection |

## Left out

- Floating point is not modelled. Prices, thresholds and multipliers are reals, and time is whole minutes rather than nanoseconds.
- Concurrency is not modelled: the `sync.RWMutex` locking, goroutines and interleavings. Each operation is atomic and sequential.
- The fire-and-forget goroutine that writes a rolled-forward stock back (stocks.go:105-122) is left out, because it runs detached. `GetUserStocks` returns the rolled-forward list and does not change the store.
- HTTP quote fetching and `json.Number` parsing are left out; the quotes are an input.
  - `GetUserStocks`: a fetched price that fails to parse becomes 0 through `price, _ :=`. That 0 is just one more quote value in the input.
  - `AddStockToUser`: a parse failure is the `None` price.
- DynamoDB plumbing is not modelled: marshalling, PutItem, GetItem, Query, Scan. The tables are in-memory maps. Query and scan answers and I/O faults are inputs.
  - `GetTriggersBySymbol` is the `fetched` input of `UpdatePrice`.
  - `GetUserStocks`' `userID` only selects the query answer, so it is not a parameter.
  - `GetStock` and `UpdateStock` read STOCKS_TABLE from the process environment; the model holds it in `stocksTable`.
- `GetUserTriggers` / `GetTriggersByUser` is left out: it only passes a store query through.
- The stocks table is created with `user_id` as partition key and `stock_id` as sort key (dynamo.go:117-139). `RemoveStockFromUser` deletes by that full key. The model's `stocks` map is keyed by stock id alone, so it treats stock ids as unique across users.
- `GetStock` (stocks.go:197-202) looks an item up by `stock_id` alone. Against a table with that composite key, DynamoDB rejects the lookup. As written, every `GetStock` would therefore fail: every candidate in `UpdatePrice` would be skipped at service.go:84-88, `CreateTrigger` would fail after storing the trigger, and `DeleteTrigger` would fail before deleting anything. The model idealises `GetStock` as a lookup by stock id that succeeds when the item exists.
- The e-mail notification in `notifyTrigger` is an unimplemented TODO, so only the websocket push is modelled.
- The websocket upgrade, the blocking read loop, `WriteJSON` encoding and origin checking are not modelled. The upgrade result and failing writes are inputs. The read loop's end is the separate `CloseConnection` step.
- The time-zone database is left out: the local time of day per zone comes with the `Clock`.
- Validate: Go iterates over the required-variable map in random order. The model searches a fixed order, so its contract promises only that the error names some empty required variable.
- Trigger ids come from `uuid.New()` and stock ids likewise; the model takes them as the `freshId` parameter.
- The background polling loop with `time.Sleep`, the Redis cache, SNS, HTTP handlers and authentication are outside this core.
