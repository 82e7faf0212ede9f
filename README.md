# Price store and backfill of the coin-prediction reputer

This project models the core of the price-oracle service in `app.py`:

- the `prices` table, keyed by `(block_height, token)`, written with
  `INSERT OR REPLACE` and counted per token;
- the `/gt/<token>/<block_height>` query. It answers with the row of the
  lower-cased token at the greatest height at or below the query, or with
  not found (404);
- `init_price_token`, the one-shot backfill. It skips a token that already
  has rows. Otherwise it converts each historical `(timestamp_ms, price)`
  point to a block height, `int(latest - (end_epoch - ts/1000) / 5)`, drops
  heights below 1 and upserts the rest;
- `update_price`. It first attempts the backfill and ignores its failure.
  Then it answers 400 for an unknown provider id, or writes the live price
  at the latest block height and reports the token's row count;
- `get_latest_network_block`. It reshapes the chain node's answer into
  `{'block': {'header': {'height': h}}}`. A missing key gives height 0; any
  other failure gives `{}`.

The table is the field `rows: map<Key, real>` of the class
`PriceService.PriceStore`. A map holds at most one price per key, as the
primary key demands. The methods `Upsert`, `Count`, `GetPrice`,
`InitPriceToken` and `UpdatePrice` change or read it. Each stateful method is
tied to a pure function of the old table (`Backfill.Init`,
`PriceService.LiveUpdate`, `NearestLookup.GetPrice`), and the lemmas prove the
promised properties about those functions. The backfill loop is a `for` loop
whose invariant equates the table with `Backfill.Stored` applied to the
converted points done so far. `Backfill.Init` takes the chain answer after
`LatestBlock.LatestNetworkBlock` has normalised it.

Every network answer is a parameter: the provider's current prices, its
historical series, the chain node's JSON document, and `end_date_epoch`.

Modules, one file each: `Optional`, `TextCase` (lower-casing),
`PriceTable` (keys and counts), `NearestLookup` (the query),
`TimeAlignment` (timestamp to height), `LatestBlock` (the normaliser),
`Backfill` (the backfill as a function) and `PriceService` (the store class
and the live update).

Four behaviours of the code are easy to overlook, and the model keeps them:

- `update_price` runs the backfill before it looks at the price answer. A 400
  answer therefore leaves the table as the backfill left it. It is not
  necessarily the table as it was before the call.
- A chain document with a missing key normalises to height 0. The live update
  does not apply the `< 1` rule, so it then writes its price at height 0. Only
  the backfill drops heights below 1.
- The conversion truncates toward zero, as Python's `int()` does; it is not
  floor. `TimeAlignment.TruncAgreesWithFloorWhenKept` shows that both keep
  the same points.
- A backfill that succeeds but keeps no point leaves the token without rows.
  That happens with an empty history, or with latest height 0 and no future
  points. The next `update_price` then loads the history again, so the load
  happens at most once only after some point was kept.
  `Backfill.InitRetriesWhenNothingKept` states this.

## Model

| member | source | states |
|---|---|---|
| `TextCase.Lower` | app.py:73 | lower-casing keeps the length and folds every character |
| `TextCase.LowerCharacterisation` | app.py:73 | the result is lower-case, and the string is unchanged exactly when it already was lower-case |
| `TextCase.LowerIdempotent` | app.py:116 | lower-casing a string that is already lower-cased changes nothing |
| `PriceTable.UpsertCount` | app.py:46-48 | `INSERT OR REPLACE` adds one to the token's count for a new key, none for an existing key, and none to any other token |
| `PriceTable.CountPositive` | app.py:116-119 | a token's count is positive exactly when some row carries that token |
| `NearestLookup.ClosestExists` | app.py:99 | a non-empty candidate set has a row with the least `ABS(block_height - query)`, so `LIMIT 1` has a row to take |
| `NearestLookup.GetPrice` | app.py:95-106 | a found row belongs to the lower-cased token, lies at or below the query, carries its stored price, and is at the greatest such height; not found happens exactly when the token has no row at or below the query |
| `NearestLookup.GetPriceCaseInsensitive` | app.py:100 | two tokens that lower-case alike get the same answer |
| `NearestLookup.GetPriceIgnoresLaterRows` | app.py:98 | adding a row above the query height never changes the answer |
| `NearestLookup.GetPriceAfterUpsert` | app.py:95-100 | after a write at some height, the query at that height answers that row and price |
| `NearestLookup.GetPriceFindsStoredRow` | app.py:95-100 | a row of a lower-case token is what the query for that token at that row's height returns |
| `NearestLookup.GetPriceExample` | app.py:95-106 | with rows at 100, 200 and 300, the query at 250 answers the row at 200 and the query at 50 answers not found |
| `TimeAlignment.Trunc` | app.py:143 | `int()` of a float truncates toward zero |
| `TimeAlignment.TruncOfInt` | app.py:143 | truncating an integral value gives that value |
| `TimeAlignment.TruncMonotone` | app.py:143 | truncation is monotone |
| `TimeAlignment.HeightAtBlockBoundary` | app.py:142-143 | a timestamp exactly `k` block times of 5 s before the anchor converts to `latest - k`; this is the inverse of the linear model |
| `TimeAlignment.ConversionExamples` | app.py:15 | the anchor time converts to `latest`, and 50 s earlier converts to `latest - 10` |
| `TimeAlignment.HeightMonotone` | app.py:142-143 | a later timestamp never converts to a lower height |
| `TimeAlignment.PastNeverAboveLatest` | app.py:142-143 | a timestamp at or before the anchor never converts above `latest` |
| `TimeAlignment.TruncAgreesWithFloorWhenKept` | app.py:143-146 | truncation and floor agree on which values pass the `< 1` rule, and on every value that passes |
| `LatestBlock.DigitsValueOfShowNat` | app.py:171 | reading the decimal digits of a natural number gives back that number |
| `LatestBlock.ParseIntOfShowInt` | app.py:171 | `int()` of a height written as text gives back that height, for negative heights too |
| `LatestBlock.FetchFailureGivesNoBlock` | app.py:177-179 | a failed request normalises to `{}` |
| `LatestBlock.ListUsesFirstElement` | app.py:164-167 | a list answer is normalised through its first element |
| `LatestBlock.MissingKeyGivesHeightZero` | app.py:170-174 | a dictionary answer missing `block`, `header` or `height` gives height 0 |
| `LatestBlock.NormaliseHeightDocument` | app.py:163-176 | the node's document, with its height as text, alone or first in a list, gives that height, and the normalised height document normalises to itself (the other answer, `{}`, gives height 0) |
| `LatestBlock.SeparatorIsNotSpace` | app.py:170-179 | a height text led by U+001C is not a number to `int()`, so the document normalises to `{}` |
| `Backfill.SamplesAscend` | app.py:140-143 | a history in ascending time order converts to heights that never go down |
| `Backfill.SamplesNeverAboveLatest` | app.py:140-143 | a history with no point after the anchor time converts to heights of at most the latest one |
| `Backfill.StoredUntouched` | app.py:140-149 | a row that no sample of height at least 1 lands on keeps its presence and its price |
| `Backfill.StoredNeverBelowOne` | app.py:145-149 | every row the loop adds has the lower-cased token and a height of at least 1; other tokens' rows and rows below 1 are unchanged |
| `Backfill.StoredKeepsKey` | app.py:145-149 | every sample of height at least 1 leaves a row at its height |
| `Backfill.StoredLastWriteWins` | app.py:149 | a sample is stored at its height with its price unless a later sample lands on the same height |
| `Backfill.BackfillNothingAtHeightZero` | app.py:142-146 | with latest height 0 and no future timestamps, nothing is stored |
| `Backfill.InitGuard` | app.py:116-121 | a token with rows is left alone and its count is reported; a failed backfill writes nothing |
| `Backfill.InitFrame` | app.py:110-155 | the backfill writes only rows of the lower-cased token at heights of at least 1, and every other token's rows stay as they were |
| `Backfill.InitAtMostOnce` | app.py:116-121 | after a backfill that kept some point, a second call changes nothing, whatever its collaborators answer |
| `Backfill.InitRetriesWhenNothingKept` | app.py:116-149 | a backfill that keeps no point reports success, leaves the table unchanged, and a later call on a received block and history loads again |
| `PriceService.UpdateStatus` | app.py:65-88 | 200 exactly for a stored update, 400 exactly for an unknown provider id, 500 exactly for a failed update |
| `PriceService.LookupStatus` | app.py:103-106 | 200 exactly when a row is found, 404 exactly when none is |
| `PriceService.LiveUpdateRejectsUnknownId` | app.py:65-68 | 400 exactly when the price answer lacks the lower-cased provider id; only a 200 answer writes |
| `PriceService.LiveUpdateFailure` | app.py:63-88 | 500 exactly when the price request fails, the price answer has the provider id but not the quote currency, or no block height can be read |
| `PriceService.LiveUpdateStoresPrice` | app.py:65-86 | 200 exactly when both requests succeed and the price exists; then the row at the latest height holds the fetched price, the query at that height answers it, and the reported count is the count after the write, one more than before unless the key existed |
| `PriceService.PriceStore.constructor` | app.py:43-48 | the table starts empty |
| `PriceService.PriceStore.Upsert` | app.py:78-81 | the key holds the new price, every other row is unchanged, and the token's count grows by one exactly when the key is new |
| `PriceService.PriceStore.Count` | app.py:82-83 | the number of rows of the token, positive exactly when one exists |
| `PriceService.PriceStore.StoredRowsAreFound` | app.py:95-100 | in a table whose tokens are all lower-case, every row is what the query for its token at its height returns |
| `PriceService.PriceStore.GetPrice` | app.py:91-106 | the answer of `NearestLookup.GetPrice` on the current table |
| `PriceService.PriceStore.InitPriceToken` | app.py:110-155 | the loop leaves the table equal to `Backfill.Init` of the old table, and a table whose tokens were all lower-case stays so |
| `PriceService.PriceStore.UpdatePrice` | app.py:53-88 | the table and the answer are the live update applied after the backfill attempt, whatever that attempt's outcome, and a table whose tokens were all lower-case stays so |

## Left out

- HTTP routing, `jsonify`, the message texts and `print` logging: web-framework shell. The model keeps the status decisions of `update_price` (200, 400, 500) and the 200/404 decision of `get_price`.
- The network requests, the retry decorator (5 attempts, exponential wait) and the URL construction. Their answers are parameters, and `None` stands for a request that raised.
- `datetime.now()` and the 30-day window. `end_date_epoch` is a parameter, and the window is the provider's business.
- SQLite connections and transactions. Every failure the model knows of happens before the first write, so the commit-or-rollback of `with sqlite3.connect(...)` needs no separate model.
- SQLite's coercion of the URL's `block_height` text to a number: the query height is an `int`.
- Floating point: prices are opaque `real` values, and the conversion uses exact rational arithmetic instead of Python floats, so rounding in the last bit is not modelled.
- Malformed historical points, such as a point that is not a pair or a non-numeric timestamp. Python would raise inside the loop and SQLite would roll the batch back. The model takes the points as well-formed pairs. Likewise for the live price answer (app.py:66): its type cannot hold a `null` price, which Python stores as NULL and answers 200, nor a non-dictionary entry under the provider id, which raises `TypeError` and answers 500 (app.py:87-88).
- Exception swallowing around the backfill: the model only shows that the live update runs whatever the backfill's outcome.
- TextCase.Lower: folds only the ASCII letters, whereas Python's `str.lower` also folds other Unicode letters.
- LatestBlock.ParseInt: accepts ASCII white space, a sign and ASCII digits. It does not strip the ASCII separators U+001C to U+001F: `int()` rejects them in an ASCII string even though `str.isspace()` accepts them. Python's `int()` also accepts underscores between digits, Unicode digits and Unicode white space. On Python 3.11 and later, and on the 3.7.14, 3.8.14, 3.9.14 and 3.10.7 security releases, `int()` raises `ValueError` on a string of more than 4300 digits, and decoding a JSON integer literal that long fails the same way. Both end in `{}` (app.py:177-179), whereas the model reads any number of digits.
- LatestBlock.IntOf: infinite and NaN floats are not modelled. `int()` rejects them, so the program answers `{}`. Python's decoder produces them from `NaN`, `Infinity` and from a legal number too large for a float, such as `1e400`; the model instead reads such a number as an exact real.
- The 500 answer of `get_price` (app.py:107-108): the model's lookup cannot fail. Its only causes in the code are SQLite errors, such as a missing table or a failed connection.
- SQLite's 64-bit INTEGER column (app.py:79-80, 149): Python's sqlite3 raises an overflow error for a height outside the signed 64-bit range. The model stores heights as unbounded integers, so it does not turn such a height into a 500 answer or a failed backfill.
- Concurrent first calls that could both see a count of 0: the model is sequential.
- main.py and update_app.py: thin HTTP clients with argument parsing and JSON printing.
- Timestamp-keyed tables, lookups by nearest distance in either direction, and windowed "N minutes after" lookups: `app.py` has none of them.
