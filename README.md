# Portfolio manager: caches, position lists, background saves and valuation

This project models the in-process layer of a small stock-portfolio web
application (`app.py`). That layer sits between the request handlers and two
external services, a cloud drive holding each user's `portfolio.csv` and a
market-quote provider. It has four parts:

- **Quote cache** (`market_data_cache`, `get_stock_info`): per-ticker quotes,
  served from the cache for 300 seconds. On a miss the provider's answer is
  normalised (a numeric price or 'N/A'; the dividend yield defaults to 0) and
  stored. A provider failure stores and returns the 'N/A' quote.
- **Portfolio cache** (`portfolio_cache`, `get_cached_portfolio`): per-user
  position lists, served for 60 seconds. The cache holds the list object
  itself. The add and edit handlers change that object in place without
  refreshing its timestamp. The delete handler builds a new list instead.
- **Save queue** (`save_portfolio` and a one-worker executor): each save
  projects the positions to `{ticker, quantity}` rows and queues them. The
  worker writes queued jobs in FIFO order and drops a write that fails.
- **Valuation** (`add_market_data`, `portfolio_total`): joins a quote onto
  every position and computes `total_value = price * quantity`, or 'N/A'.
  The portfolio total sums the numeric totals and skips the 'N/A' ones.

Dafny modules: `Common` (Option, time-stamped cache entries), `QuoteCache`,
`Positions` (the position list object and the add/edit/delete list logic),
`PortfolioCache`, `SaveQueue`, `Valuation` and `Routes` (the handlers put
together).

The clock is an integer parameter `now`. What the quote provider would answer
is a `Reply` parameter: it failed, or here is its info dictionary. The rows a
drive read would return are a parameter as well. The drive itself is a map
from user to the rows of their file.

Two behaviours of the code are easy to miss, and the model follows the code:
- `add_market_data` submits one lookup per position, not one per distinct
  ticker. A later lookup of the same ticker replaces the earlier one in
  `ticker_data`. Run one after another, that later lookup is a cache hit.
- `delete_position` does not filter the cached list in place. It rebinds a new
  list, so the cached list keeps the deleted position (see Findings).

## Model

| member | source | states |
|---|---|---|
| `QuoteCache.Normalise` | app.py:105-133 | the stored quote's dividend yield is never None; the price is numeric exactly when 'currentPrice' is present and float() accepts it, else 'N/A'; a missing or None yield becomes 0; a provider failure gives the 'N/A' / 0 quote |
| `QuoteCache.StockInfo` | app.py:95-133 | the returned data is what the table then holds for the ticker, and that entry is live; a live entry is a hit that leaves the table unchanged; otherwise the normalised reply is stored, stamped `now`; no other key changes; all-normal tables stay all-normal |
| `QuoteCache.RepeatWithinWindowHits` | app.py:97-103 | after a lookup that asked the provider, a second lookup less than 300 s later does not ask it, returns the same data and leaves the table as it was |
| `QuoteCache.ExpiredEntryRefetched` | app.py:100-124 | once an entry is 300 s old, the next lookup asks the provider and overwrites the entry with the new data and time |
| `QuoteCache.MarketDataCache.constructor` | app.py:46-47 | the quote cache starts empty |
| `QuoteCache.MarketDataCache.GetStockInfo` | app.py:95-133 | the method's result and new table are those of `StockInfo`; the cache keeps the invariant that every stored quote is normal |
| `Positions.Upper` | app.py:339 | upper-casing keeps the length, maps each ASCII lower-case letter to its upper-case letter, leaves no lower-case letter and changes no other character |
| `Positions.UpperIdempotent` | app.py:339 | upper-casing a second time changes nothing, so a stored (upper-cased) ticker is unchanged when it is typed again |
| `Positions.UpperIgnoresCase` | app.py:339 | two tickers that differ only in the ASCII case of their letters upper-case to the same string, so a stored ticker is found again whatever case it is typed in |
| `Positions.FirstIndex` | app.py:345-349 | finds the first position with the ticker, with no match before it, or reports that no position has it |
| `Positions.Added` | app.py:344-355 | with a match, only the first matching position's quantity grows by the new quantity and the length is unchanged; it fails when that quantity is not a number; with no match, the new position is appended after the unchanged elements |
| `Positions.AddedKeepsUnique` | app.py:344-355 | adding keeps tickers unique |
| `Positions.Edited` | app.py:370-373 | only the first matching position gets the new quantity; every ticker and all market fields are kept; with no match the list is unchanged |
| `Positions.Without` | app.py:382 | no position of the deleted ticker remains and the list does not grow |
| `Positions.WithoutKeeps` | app.py:382 | the filter keeps exactly the positions whose ticker differs, and the whole list when no position has the ticker |
| `Positions.WithoutConcat` | app.py:382 | filtering distributes over concatenation, so the kept positions stay in their original order |
| `Positions.WithoutIgnoresUpdate` | app.py:382 | changing a position of the deleted ticker does not change what the filter keeps |
| `Positions.AddThenDelete` | app.py:339-382 | deleting a ticker after adding to it leaves the same positions as deleting it without the add |
| `Positions.EditThenDelete` | app.py:364-382 | deleting a ticker after editing it leaves the same positions as deleting it without the edit |
| `Positions.Project` | app.py:210-213 | the saved rows have the same length and order as the positions and keep only each ticker and quantity |
| `Positions.ProjectIgnoresMarket` | app.py:209-213 | lists that agree on tickers and quantities save the same rows, whatever market fields they carry |
| `Positions.FromRows` | app.py:168-170 | the positions read from rows project back to exactly those rows and carry no market fields |
| `Positions.PositionList.AddPosition` | app.py:339-355 | the list object changes in place to `Added` of the upper-cased ticker, or stays as it was when float() raises; unique tickers stay unique |
| `Positions.PositionList.EditPosition` | app.py:366-373 | the list object changes in place to `Edited`; unique tickers stay unique |
| `PortfolioCache.PortfolioCache.constructor` | app.py:44-45 | the portfolio cache starts empty |
| `PortfolioCache.PortfolioCache.GetCachedPortfolio` | app.py:135-146 | a live entry (less than 60 s old) returns the cached list object and leaves the table unchanged; otherwise a new list of the rows read is stored, stamped `now`, and returned |
| `SaveQueue.Apply` | app.py:176-202 | a successful write replaces only that user's file with the job's rows; a failed write leaves the store as it was |
| `SaveQueue.DrainSnoc` | app.py:48 | running one more job after a batch is applying it to the batch's result (FIFO) |
| `SaveQueue.LastSuccessfulWriteWins` | app.py:176-202 | whatever the outcomes, each user's file ends with the rows of their last job whose write succeeded; with no such job, their file is as it was |
| `SaveQueue.LastWrittenAllSucceed` | app.py:48 | when every write succeeds, the last successful job for a user is their last job |
| `SaveQueue.LastWriteWins` | app.py:48 | once every queued write has succeeded, each user's file holds the rows of their last job; other users' files are untouched |
| `SaveQueue.SaveQueue.constructor` | app.py:48 | the executor starts with no pending job |
| `SaveQueue.SaveQueue.SavePortfolio` | app.py:204-219 | with a signed-in user, exactly one job holding the projection of the positions is appended to the queue; otherwise nothing happens; the drive is not touched |
| `SaveQueue.SaveQueue.RunNext` | app.py:176-202 | the worker takes the oldest job, if any, and applies it to the store with the given outcome |
| `SaveQueue.SaveQueue.RunPending` | app.py:48 | running every queued job in turn empties the queue and leaves the store that `Drain` gives for the jobs in submission order |
| `Valuation.Valuate` | app.py:239-248 | the total value is price times quantity exactly when both are numbers, and 'N/A' otherwise; the quote's fields are carried over |
| `Valuation.LookedUpStep` | app.py:232-236 | one more lookup keeps every looked-up ticker live and keeps the lookup relation with the table from before |
| `Valuation.FetchQuotes` | app.py:231-236 | one lookup per position: `ticker_data` has exactly the portfolio's tickers, each mapped to what the cache now holds; tickers whose entry was live are unchanged, the rest hold the provider's answer stamped `now`; other keys are untouched |
| `Valuation.AddMarketData` | app.py:229-250 | length, order, tickers and quantities are kept; every position gets the fields of its ticker's cached quote and the total `Valuate` gives; the quote cache changes as `FetchQuotes` says |
| `Valuation.TotalConcat` | app.py:389-396 | the total of a concatenation is the sum of the totals |
| `Valuation.TotalSkipsSentinel` | app.py:391-395 | a position whose total is 'N/A' contributes nothing: the total equals that of the other positions |
| `Valuation.PortfolioTotal` | app.py:386-396 | the accumulated total equals `Total`, the sum of the numeric totals |
| `Routes.AddPosition` | app.py:336-362 | the cached list object is changed to `Added`, its cache timestamp is that of the read and not of the change, its projection is queued, and that same object is rendered with each position valued by its ticker's cached quote, after one cache lookup per position of the changed list; when float() raises nothing is queued and the quote cache is untouched; no other cached list changes |
| `Routes.SaveAndValue` | app.py:357-361 | the save of the changed list is queued first, then each of its tickers is looked up in the quote cache as `FetchQuotes` says, and that list object keeps its order, tickers and quantities and gets its tickers' cached quotes |
| `Routes.EditPosition` | app.py:364-376 | the cached list object is changed to `Edited` in place and its projection is queued; the cache timestamp is not refreshed |
| `Routes.DeletePosition` | app.py:378-384 | the filtered list's projection is queued, but the cached list object still holds the deleted position |
| `Routes.DeletePositionWriteBack` | app.py:378-384 | corrected delete: the cached list object becomes the filtered list, which is what is queued |
| `Routes.ReadPortfolio` | app.py:252-255 | the full-read path returns a new list, bypassing the portfolio cache; every position of the rows read is looked up and valued with its ticker's cached quote, and the list projects back to the rows read |
| `Routes.DeleteIsLastWord` | app.py:382-383 | when a user's last queued job is a delete of a ticker, their file has no row for it once every write has succeeded |
| `Routes.DeleteThenAddResurrects` | app.py:382 | deleting AAPL from a cached [AAPL 5] saves no rows, but a following add of 'msft' to the still-cached list saves [AAPL 5, MSFT 1] |
| `Routes.DeleteThenAdd` | app.py:336-384 | the two requests through the routes as written, at one time on a cached [AAPL 5]: the delete queues [] and the add then queues [AAPL 5, MSFT 1] |
| `Routes.DeleteWriteBackThenAdd` | app.py:336-384 | the same two requests with the corrected delete: the delete queues [] and the add queues [MSFT 1] |
| `Routes.DeleteWriteBackStaysDeleted` | app.py:382 | after the corrected delete, a later add or edit of another ticker saves no row for the deleted ticker |
| `Routes.AddEditDelete` | app.py:336-384 | adding 5 'aapl', setting AAPL to 8 and deleting AAPL queue, in request order, the add's save holding an AAPL row (exactly when `Added` succeeds on the cached list, that is, when AAPL is absent or float() accepts its stored quantity), the edit's save holding the row AAPL 8, and last the delete's save, the rows still cached afterwards without AAPL |
| `Routes.AddEditDeleteSaved` | app.py:336-384 | the same three requests, then the worker runs the queue: the queue it ran holds those jobs in that order after the earlier ones, it ends empty, the drive is what writing that queue in order gives, and the user's file has no AAPL row |

## Findings

| source | as written | input that shows it | evidently intended | confidence | as-written member | corrected member |
|---|---|---|---|---|---|---|
| app.py:382 | `portfolio = [p for p in portfolio if ...]` binds a new list, so the list held by `portfolio_cache` keeps the deleted position for up to 60 s | cached list [AAPL 5]; delete AAPL (saves []), then add MSFT within 60 s: the saved rows are [AAPL 5, MSFT 1] | the cached list loses the deleted position, as add and edit change it in place | high; not executed | `Routes.DeleteThenAddResurrects`, `Routes.DeleteThenAdd` | `Routes.DeleteWriteBackStaysDeleted`, `Routes.DeleteWriteBackThenAdd` |

The as-written handler is `Routes.DeletePosition`. Its contract states that the
cached list keeps the position. The corrected handler is
`Routes.DeletePositionWriteBack`. `Routes.DeleteThenAdd` and
`Routes.DeleteWriteBackThenAdd` run the input above through each handler and
then the add route. `Routes.AddEditDeleteSaved` runs the
as-written handler, as the source does, and its conclusion is proved for that
handler only.

## Left out

- Sign-in: the OAuth login, callback and logout routes, `login_required` and the session are identity-provider glue. The handlers assume a signed-in user. `SavePortfolio` keeps the signed-in check as an optional user, and the credentials passed to the worker are not modelled.
- The drive: `find_or_create_portfolio_file`, `read_portfolio_from_drive` and `save_portfolio_to_drive` are foreign SDK I/O. A read is the `driveRead` rows parameter, which is empty when the read fails. A write is `Apply` on the store map, with its success given as a flag. Writing and parsing CSV is not modelled: rows are stored as they are.
- The quote provider (`yf.Ticker(...).info`) is a foreign call. It is the `Reply` parameter. A float() overflow on a huge price, which the outer handler turns into the 'N/A' quote, is not distinguished from other numbers.
- Concurrency: the ten-thread lookup pool in `add_market_data` runs sequentially here. Two concurrent lookups of one uncached ticker could both ask the provider; here the second is a cache hit. The executor's worker runs only when `RunNext` or `RunPending` is called, so its interleaving with requests is left to the caller. The unlocked shared dictionaries are not modelled.
- The clock: `time()` gives float seconds and is read on every call. The model uses whole seconds, read once per request.
- Floating point: quantities and prices are reals. Float rounding, NaN and infinities, and the text form of `str(float(...))` are not modelled.
- The parsing of the request's quantity (`float(request.form.get('quantity'))`) is not modelled. When it fails, the handler stops before touching any state. `Routes.AddPosition` takes the parsed number.
- `edit_position` stores the raw form text as the quantity (app.py:367, 372). `Quantity` keeps only whether float() accepts that text and, if it does, the number.
- A missing `ticker` form field makes `request.form.get('ticker').upper()` raise AttributeError (app.py:339) before any state changes. `Routes.AddPosition` takes a ticker string, so this case is not modelled.
- `Positions.Upper` upper-cases ASCII letters only. Python's full Unicode case mapping is not modelled.
- `Valuation.PortfolioTotal` requires every position to carry `total_value`. Without it, the source raises `KeyError`, which the filter does not catch. That error path is not modelled.
- `number_format`, the Flask routes' responses, the templates and `render_template` are presentation. `edit_position`'s echo of the quantity is not modelled.
