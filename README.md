# Quote retrieval, caching and assets — a Dafny model

This project models the server core of an investment-tracking application in
Dafny, and proves properties of that model. The core has three parts:

- **The price endpoint** (`getPrices`, `src/controllers/price.controller.ts`).
  - A comma-separated `tickers` query is split into items.
  - The USD/BRL exchange rate is looked up once per request. It is served from
    a 30-second cache. When that entry is stale the rate is fetched again; if
    the fetch fails, the last cached rate is used (stale on error). If nothing
    was ever cached, the result is the default rate 5.0 when the quote came back
    empty, or an error when the call threw. That error does not abort the
    request: it only leaves the rate null.
  - Each item is resolved in order. The first rule that applies wins:
    1. a fresh cache entry under the upper-cased ticker (`cache`), whose quote is
       upserted into the price table again;
    2. a complete remote quote (`api`), which is cached and upserted into the
       price table;
    3. the persisted row (`database_fallback`, or `database_fallback_on_error`
       when the remote call threw);
    4. an error entry naming the requested ticker.
  - Every priced entry carries its BRL equivalent, computed by the expression
    the controller repeats in each branch.
- **The chart-API client** (`yahoo-finance.js`).
  - Market-prefix normalisation: `BR:` becomes a `.SA` suffix, and `BR:` and
    `US:` are stripped. JavaScript's `replace` with a string pattern replaces
    only the first occurrence, and the model does the same.
  - `getQuote` and `getExchangeRate` shape the `meta` of the first chart
    result.
  - `getPriceHistory` zips timestamps with closes and drops null closes.
  - `getMultipleQuotes` drops failed quotes and keeps the rest in order.
- **The asset endpoints** (`src/controllers/asset.controller.ts`).
  - Listing the caller's assets.
  - Creation, with its order of validation: required fields, then category,
    then currency. A duplicate (user, ticker) pair is answered with 400.
  - Get-or-create of a category by name.
  - The ownership-checked update, with its field-wise merge. A duplicate ticker
    there fails with 500, because only creation handles the unique constraint.
  - The ownership-checked delete.

The state the source changes in place is held in two classes:

- `PriceController.PriceService` holds the module-level cache and the price
  table.
- `AssetController.AssetStore` holds the asset and category tables.

Each method is proved equal to a pure function of the old state (`FetchRate`,
`SavePrice`, `ResolveOne`, `ResolveAll`, `Prices`), or its whole outcome is
stated directly (`UpdateOutcome`). Lemmas over those functions state the
properties.

The outside world is modelled as follows:

- **Remote quote service:** an `Env` value gives, for the item at position k
  of the request, the reply its remote call would get. An item served from the
  cache makes no call, and its reply is simply not consulted.
- **Price-table failures:** the same `Env` value says whether the read and the
  write made for the item at position k fail.
- **Chart HTTP endpoint:** a total function from the request parameters to the
  reply.
- **Clock:** a parameter `now`, used for every clock reading of one request.

Some design choices of the code are worth stating plainly:

- There is no single-flight registry: concurrent misses are not deduplicated.
- There is no "bare length ≤ 5 gets `.SA`" rule: `PETR4` stays `PETR4`. Only
  `BR:` triggers the suffix.
- The batch result is an array in request order, not a map keyed by ticker.
  A duplicated ticker is resolved twice. The second time it is usually a cache
  hit.
- The sources are named `cache`, `api`, `database_fallback` and
  `database_fallback_on_error`.
- Category creation inside create and update is a find and then a create, not
  an atomic operation. A category created before a rejected write stays.

## Model

| member | source | states |
|---|---|---|
| Strings.UpperChar | src/controllers/price.controller.ts:61 | a lower-case ASCII letter is shifted to upper case; every other character is kept; the result is never a lower-case letter |
| Strings.ToUpper | src/controllers/price.controller.ts:61 | same length, each character upper-cased independently |
| Strings.ToUpperIdempotent | src/controllers/price.controller.ts:150 | upper-casing an upper-cased key changes nothing, so the key written and the key read agree |
| Strings.Contains | yahoo-finance.js:8 | `s.includes(p)`: `p` starts `s` or occurs in its tail (characterised by ContainsAt) |
| Strings.ContainsAt | yahoo-finance.js:8 | `includes` holds exactly when the pattern occurs at some position |
| Strings.AbsentFirstChar | yahoo-finance.js:8 | a pattern whose first character is absent from the string does not occur in it |
| Strings.FirstIndex | yahoo-finance.js:9 | the returned position holds an occurrence of the pattern and no earlier position does |
| Strings.ReplaceFirst | yahoo-finance.js:13 | a string that does not contain the pattern is returned unchanged; replacing by something no longer than the pattern never lengthens it |
| Strings.ReplaceFirstAt | yahoo-finance.js:9 | when the pattern occurs, exactly its first occurrence is replaced and the text around it is kept |
| Strings.Split | src/controllers/price.controller.ts:46 | at least one piece, and no piece contains the separator |
| Strings.SplitJoin | src/controllers/price.controller.ts:46 | joining the pieces with the separator gives back the query |
| Strings.SplitCount | src/controllers/price.controller.ts:46 | the number of items is one more than the number of commas |
| YahooFinance.SuffixLacks | yahoo-finance.js:8 | `.SA` holds no dot-free pattern of three or more characters |
| YahooFinance.ReplaceFirstBeforeSuffix | yahoo-finance.js:9-13 | replacing `BR:` or `US:` after `.SA` is appended gives the replacement with `.SA` appended |
| YahooFinance.StartsWithBeforeSuffix | yahoo-finance.js:9-13 | a dot-free prefix of `x + ".SA"` is a prefix of `x` |
| YahooFinance.ContainsAfterChar | yahoo-finance.js:8 | a leading character that cannot start the pattern does not change whether it occurs |
| YahooFinance.StripMarket | yahoo-finance.js:13 | never longer than its input; a ticker without `BR:` and `US:` is returned unchanged |
| YahooFinance.Normalize | yahoo-finance.js:8-13 | at most three characters longer than its input; a ticker without `BR:` is only stripped of its first `US:` |
| YahooFinance.NormalizeAppendsSuffix | yahoo-finance.js:8-13 | a ticker mentioning `BR:` and not `.SA` becomes its stripped remainder with one `.SA` appended |
| YahooFinance.NormalizeKeepsSuffix | yahoo-finance.js:8-13 | a ticker already mentioning `.SA` only loses its first `BR:` and first `US:` |
| YahooFinance.NormalizePlain | yahoo-finance.js:8-13 | a ticker without market prefixes is left unchanged |
| YahooFinance.NormalizeBrazilian | yahoo-finance.js:8-13 | `BR:` followed by a bare symbol becomes the symbol followed by `.SA` |
| YahooFinance.NormalizeUnitedStates | yahoo-finance.js:13 | `US:` followed by a bare symbol becomes the bare symbol |
| YahooFinance.NormalizeBrazilianExample | yahoo-finance.js:8-13 | `BR:VALE3` becomes `VALE3.SA` |
| YahooFinance.NormalizeUnitedStatesExample | yahoo-finance.js:13 | `US:AAPL` becomes `AAPL` |
| YahooFinance.NormalizePlainExample | yahoo-finance.js:8-13 | `PETR4` stays `PETR4`: no suffix without the `BR:` prefix |
| YahooFinance.FirstResult | yahoo-finance.js:17-18 | success exactly when the body has a non-empty `chart.result`; then its first element; a missing `chart.result` is the not-found error |
| YahooFinance.GetQuote | yahoo-finance.js:5-35 | success exactly when the normalised ticker's chart has a result; then the normalised ticker, price, previous close, their difference, the currency and the time in milliseconds |
| YahooFinance.GetExchangeRate | yahoo-finance.js:38-55 | success exactly when the USD/BRL chart has a result; then its market price and its time in milliseconds |
| YahooFinance.Successes | yahoo-finance.js:106 | no longer than its input; a quote is kept exactly when it was a success |
| YahooFinance.SuccessesAppend | yahoo-finance.js:106 | the filter commutes with concatenation, so the order of the input is kept |
| YahooFinance.GetMultipleQuotes | yahoo-finance.js:98-111 | at most one quote per ticker; every successful quote is present; every result is the quote of some requested ticker |
| YahooFinance.GetMultipleQuotesAppend | yahoo-finance.js:100-106 | the quotes of a concatenation of ticker lists are the quotes of each list, in order, duplicates included |
| YahooFinance.GetMultipleQuotesOne | yahoo-finance.js:100-106 | one ticker contributes exactly its quote when getQuote succeeds and nothing when it fails |
| YahooFinance.FailureIsSkipped | yahoo-finance.js:100-106 | a failing ticker between two groups leaves the concatenation of both groups' quotes |
| YahooFinance.Points | yahoo-finance.js:76-80 | one point per timestamp: the date in milliseconds and the close at the same index, undefined past the end |
| YahooFinance.DropNulls | yahoo-finance.js:81 | a point is kept exactly when its price is not null; nothing is dropped if there is no null |
| YahooFinance.DropNullsAppend | yahoo-finance.js:81 | dropping nulls commutes with concatenation, so the history keeps its order |
| YahooFinance.GetPriceHistory | yahoo-finance.js:58-95 | the request uses the normalised ticker and the period, `1mo` by default; success exactly when the chart has a result; then its currency and the zipped, filtered points |
| YahooFinance.FullHistory | yahoo-finance.js:76-81 | with a close for every timestamp and no null, every day is kept in order |
| PriceController.Fresh | src/controllers/price.controller.ts:62 | a key is served from the cache while its entry is younger than 30 000 ms; nothing is evicted (its window is stated by FreshWindow) |
| PriceController.FreshWindow | src/controllers/price.controller.ts:62 | an entry written at time t is served exactly while fewer than 30 000 ms have passed |
| PriceController.RateKeyUpper | src/controllers/price.controller.ts:15 | the rate key is its own upper case, so it shares the ticker key space |
| PriceController.FetchRate | src/controllers/price.controller.ts:14-38 | fresh entry served with the cache unchanged; otherwise a quote with a truthy price is stored under the rate key at `now` and its price returned; otherwise the stale rate, else the default 5.0 on an empty reply, else the error; the error exactly when nothing is cached and the call threw; the cache invariant is kept and a returned rate is non-zero |
| PriceController.StaleRateOnFailure | src/controllers/price.controller.ts:28-37 | any cached rate, however old, is returned when the refresh fails, and the cache is unchanged |
| PriceController.RateComplete | src/controllers/price.controller.ts:24 | the rate path accepts a returned quote with a truthy price |
| PriceController.Complete | src/controllers/price.controller.ts:84 | the ticker path accepts a returned quote with a truthy price and a truthy currency, so every quote it accepts the rate path would accept too |
| PriceController.PriceInBRL | src/controllers/price.controller.ts:64-72 | no BRL price exactly when the currency is not BRL and the rate is not truthy; a currency other than USD keeps its price |
| PriceController.PriceInBRLRule | src/controllers/price.controller.ts:64-72 | BRL keeps its price; without a truthy rate there is no BRL price; USD is multiplied by the rate; any other currency keeps its unconverted price |
| PriceController.SavePrice | src/controllers/price.controller.ts:147-165 | a failed write or a currency outside the enum leaves the table unchanged; otherwise the upper-cased key maps to the new price, currency and time and no other row changes; the table invariant is kept |
| PriceController.SavePriceIdempotent | src/controllers/price.controller.ts:147-165 | repeating an upsert with the same values differs from a single one only in the write time |
| PriceController.LoadPrice | src/controllers/price.controller.ts:167-174 | a row exactly when the read does not fail and the upper-cased ticker is stored; then that row |
| PriceController.ResolveOne | src/controllers/price.controller.ts:61-142 | `cache` source exactly on a fresh entry, reporting the cached symbol, price and currency with its stored time and upserting them into the table; otherwise a complete quote gives exactly the `api` entry of that quote at `now`, is cached and is upserted; the cache changes only by storing a complete quote; a fallback leaves the store unchanged and reports the stored row, `on_error` exactly when the call threw; an error names the ticker, carries the thrown message or the not-found message, and is given only when there is no fresh entry, no complete quote and no row; priced entries use the conversion rule and the request's rate; the store invariant is kept |
| PriceController.CacheHitIgnoresRemote | src/controllers/price.controller.ts:62-79 | on a fresh entry, neither the remote reply nor the table read matters |
| PriceController.RepeatIsServedFromCache | src/controllers/price.controller.ts:62-85 | a ticker fetched from the API is served from the cache when it is repeated in the same request, with the same symbol, price and currency |
| PriceController.ResolveAll | src/controllers/price.controller.ts:60-143 | one entry per item |
| PriceController.ResolveAllNext | src/controllers/price.controller.ts:60-143 | resolving one more item appends its entry to the earlier entries, in the store they left |
| PriceController.ResolveAllAt | src/controllers/price.controller.ts:60-143 | the k-th entry is the k-th item resolved in the store left by the first k items |
| PriceController.ResolveAllEntries | src/controllers/price.controller.ts:60-143 | every error entry names its own requested item; every priced entry uses the conversion rule and the request's rate |
| PriceController.ResolveAllValid | src/controllers/price.controller.ts:60-143 | resolving the items keeps the cache and table invariants |
| PriceController.ResolveAllInit | src/controllers/price.controller.ts:60-143 | dropping the last item drops exactly the last entry |
| PriceController.ResolveAllPrefix | src/controllers/price.controller.ts:60-143 | the first k entries do not depend on the items after them |
| PriceController.RateOf | src/controllers/price.controller.ts:49-58 | the rate used for conversion: the looked-up rate, or null when the lookup threw |
| PriceController.Prices | src/controllers/price.controller.ts:40-145 | 400 exactly when the query is missing or empty, with nothing changed; otherwise one entry per comma-separated item |
| PriceController.PricesEntries | src/controllers/price.controller.ts:40-145 | each entry of a request follows its own item and the one rate looked up for the request |
| PriceController.PricesValid | src/controllers/price.controller.ts:40-145 | a request keeps the cache and table invariants |
| PriceController.RateFailureDoesNotAbort | src/controllers/price.controller.ts:49-58 | when the rate lookup throws with nothing cached, every item is still resolved, with a null rate |
| PriceController.PriceService.constructor | src/controllers/price.controller.ts:11 | starts with an empty cache in front of the given price table |
| PriceController.PriceService.GetUSDToBRLRate | src/controllers/price.controller.ts:14-38 | the rate and the new cache are those of FetchRate; the table is untouched |
| PriceController.PriceService.UpdatePrismaPrice | src/controllers/price.controller.ts:147-165 | the new table is SavePrice of the old; the cache is untouched |
| PriceController.PriceService.GetPrismaPrice | src/controllers/price.controller.ts:167-174 | a row exactly when the read succeeds and the upper-cased ticker is stored; that row, as LoadPrice gives it |
| PriceController.PriceService.ResolveTicker | src/controllers/price.controller.ts:61-142 | the entry and the new cache and table are those of ResolveOne |
| PriceController.PriceService.ResolveTickers | src/controllers/price.controller.ts:60-143 | the entries and the new state are those of ResolveAll over the items, in order |
| PriceController.PriceService.GetPrices | src/controllers/price.controller.ts:40-145 | the response and the new state are those of Prices; 400 exactly on a missing or empty query; one entry per item; the invariants are kept |
| AssetController.ParseCategory | src/controllers/asset.controller.ts:53 | a string is accepted exactly when it is one of the category labels, and then it is that label |
| AssetController.ParseCurrency | src/controllers/asset.controller.ts:57 | a string is accepted exactly when it is one of the currency labels, and then it is that label |
| AssetController.ValidateCreate | src/controllers/asset.controller.ts:47-59 | accepted exactly when all four fields are present and the category and currency are labels of their enums; all errors are 400; missing fields first, then an invalid category, then an invalid currency; an accepted body carries exactly the given category, ticker, quantity and currency |
| AssetController.Merge | src/controllers/asset.controller.ts:113-121 | id and owner are kept and the category is the one given; a truthy ticker or currency and a defined quantity replace the old values; otherwise the old values stay |
| AssetController.MergedTicker | src/controllers/asset.controller.ts:117 | the ticker an update writes: a truthy ticker in the body, otherwise the stored one |
| AssetController.MergeEmpty | src/controllers/asset.controller.ts:113-121 | an empty body rewrites the asset unchanged |
| AssetController.MergeIdempotent | src/controllers/asset.controller.ts:113-121 | applying the same update twice equals applying it once |
| AssetController.TickerTaken | src/controllers/asset.controller.ts:76-78 | the unique (userId, ticker) constraint: another row of the same user already holds the ticker; it decides the 400 of creation and the 500 of an update (asset.controller.ts:123-125) |
| AssetController.AssetsOf | src/controllers/asset.controller.ts:30-33 | exactly the caller's rows, unchanged |
| AssetController.AddCategoryKeepsIds | src/controllers/asset.controller.ts:16-18 | creating a category keeps every asset's category reference valid |
| AssetController.UpdateOutcome | src/controllers/asset.controller.ts:102-121 | the whole outcome of an update of an owned asset: category check, category creation, currency check, the 500 on a duplicate ticker, and the merged row written over exactly that asset |
| AssetController.WriteKeepsInvariants | src/controllers/asset.controller.ts:64-78 | writing a row whose ticker the owner does not already hold keeps ids, category references and the unique (user, ticker) pair |
| AssetController.AssetStore.constructor | src/controllers/asset.controller.ts:4 | empty tables satisfying the invariants |
| AssetController.AssetStore.GetCategoryIdByName | src/controllers/asset.controller.ts:11-21 | an existing category's id is returned with nothing changed; otherwise exactly one category is created with a new id; the asset table is untouched |
| AssetController.AssetStore.GetAssets | src/controllers/asset.controller.ts:23-39 | 401 without a user; otherwise exactly the caller's assets |
| AssetController.AssetStore.CreateAsset | src/controllers/asset.controller.ts:41-81 | 401, then the validation errors, with nothing written; then the category is found, or exactly that one category is created; a ticker the user already holds gives 400 and writes no asset; otherwise exactly one new asset under a fresh id with the validated fields |
| AssetController.AssetStore.UpdateAsset | src/controllers/asset.controller.ts:83-127 | 401, 400 without an id, 404 for a missing or foreign asset, each with nothing changed; an update happens only on an owned asset; the owned case is as ApplyUpdate states |
| AssetController.AssetStore.ApplyUpdate | src/controllers/asset.controller.ts:102-121 | an invalid category is 400 before any write; a valid one is found or created; an invalid currency is 400; a ticker the owner holds elsewhere is 500; otherwise the merge is written over exactly that row |
| AssetController.AssetStore.DeleteAsset | src/controllers/asset.controller.ts:129-153 | 401, 400 without an id, 404 for a missing or foreign asset, each with nothing changed; otherwise exactly that row is removed; categories are untouched |

## Left out

- Single-flight deduplication and concurrent fan-out: the code awaits each item in turn and keeps no in-flight registry. The model resolves items sequentially.
- Fire-and-forget ordering: `updatePrismaPrice` is not awaited in the code. The model applies the write before the next item is resolved.
- Concurrent requests: requests can interleave at each `await` over the module-level cache and the shared tables. The model runs each request on its own, so it does not capture races such as two requests creating the same category, or one request seeing another's cache writes between its items.
- Clock readings: `Date.now()` in the rate lookup, the request's `now`, the `new Date()` of the upsert's update branch and the schema default for `fetched_at` in its create branch are all one value `now`.
- ISO formatting of `fetchedAt`: times are integers of milliseconds.
- YahooFinance.GetQuote: the `changePercent` field is not modelled, because it is a floating-point division (including the division by a zero previous close). Prices are exact reals: no IEEE rounding, NaN or infinities.
- Strings.ToUpper: only ASCII letters are upper-cased. JavaScript's Unicode case mapping is not modelled.
- PriceController.FetchRate: a remote quote's missing price is 0 and a missing currency is the empty string. Only their truthiness matters in the code.
- `req.query.tickers` given as an array, or as another non-string, is not modelled. The query is a string or absent.
- Logging (`console.error` / `console.warn`) carries no state and is left out.
- PriceController.SavePrice and AssetController.ParseCurrency: the persisted currency enum is taken to be {BRL, USD}. The database schema is not part of this model. An upsert with any other currency is modelled as a rejected, swallowed write.
- AssetController.ParseCategory: the category enum is taken to hold the five labels the application seeds in src/index.js:43.
- Database errors of the asset endpoints other than the unique (user, ticker) constraint, and their 500 replies, are not modelled: `findMany`, `findUnique`, `create`, `update` and `delete` always succeed.
- AssetController.AssetStore.CreateAsset: `parseFloat(quantity)` is not modelled. The quantity arrives as a number or undefined.
- AssetController.AssetStore.GetAssets: the `include: { category: true }` join is not modelled. The reply holds the rows' category ids.
- YahooFinance.GetPriceHistory: a result without `timestamp`, `indicators.quote[0]` or its `close` array is not modelled. It would throw, and the model assumes all of them are present.
- YahooFinance.GetQuote: a result without `meta` is not modelled. It would throw at the first field read, and the model assumes `meta` is present.
- Authentication, routing, the category controller and the database initialisation scripts are outside this core.
