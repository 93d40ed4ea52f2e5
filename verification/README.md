# Nutrition scan store — a Dafny model

This project models the backend of a barcode-based nutrition tracker. A
client posts a scan (a barcode, optionally with a name, four nutrients per
100 g and an image URL). The backend stores it in a SQLite `scans` table,
lists recent scans, and totals today's nutrients. There are two versions of
the backend:

- `backend/nutritionDB.py` adds a product cache. This is the `products`
  table, keyed by barcode and filled on demand from the Open Food Facts API.
  A scan that arrives with nothing but a barcode is auto-filled from that
  cache.
- `backend/app.py` is the older store. It has no cache, no auto-fill and no
  `image_url` column.

Each route is a pure function. It takes the database state, the request,
and the parts of the outside world the route reads, which are passed as
parameters:

- `ts`: the UTC write time, `datetime.utcnow().isoformat()`.
- `today`: the local query date, `date.today().isoformat()`. The model keeps
  it separate from `ts` and never assumes the two agree.
- `Fetch`: what one Open Food Facts request returned, or `None` if the
  request raised, plus the UTC time used for `updated_at`.

The modules follow the backend's structure:

- `Text` (`text.dfy`): Python's `str.strip()` over the full `str.isspace()`
  character set.
- `Api` (`api.dfy`): the request body, the nutrient columns and the
  responses. A JSON key is modelled as absent, `null`, or a value given by
  its `str()` rendering.
- `Query` (`query.dfy`): the two read queries, written once for both row
  types:
  - `substr(ts, 1, 10)` date filtering;
  - `ORDER BY ts DESC LIMIT 200` under SQLite's BINARY collation, modelled as
    code-point lexicographic order and an insertion sort;
  - `COALESCE(SUM(col), 0)` and `COUNT(*)`.
- `Products` (`products.dfy`): the Open Food Facts normalisation, the
  cache, the cache-first lookup and the `get_product` route.
- `Scans` (`scans.dfy`): the newer `add_scan`, `list_scans` and
  `summary_today`.
- `LegacyScans` (`legacy_scans.dfy`): the same three routes of the older
  store.
- `Compat` (`compat.dfy`): refinement lemmas. Once `image_url` is dropped,
  the newer store behaves like the older one, except when a bare barcode is
  auto-filled.

SQLite leaves the order of rows with equal timestamps unspecified. The model
uses one fixed order: among ties, earlier table rows come first. It only
promises that the listing is in non-increasing `ts` order.

The browser client's own lookup adapter falls back to the name "Unknown
item". The backend does not: its normaliser treats a product with no truthy
name as not found. The model follows the backend code.

## Model

| member | source | states |
|---|---|---|
| Text.Strip | backend/nutritionDB.py:205 | The stripped barcode is the part of the input left once every leading and trailing Python whitespace character is removed. It starts and ends with a non-space character. It is empty exactly when the input is all whitespace. |
| Text.StripUnique | backend/nutritionDB.py:205 | Any pair of bounds with whitespace outside and non-space ends cuts out exactly the stripped string, so stripping is fully determined by that property. |
| Text.StripIdempotent | backend/nutritionDB.py:186 | Stripping a barcode that was already stripped changes nothing. |
| Api.OrElse | backend/nutritionDB.py:112 | Python's `a or b` on optional strings is truthy exactly when one of the operands is. |
| Products.FetchOpenFoodFacts | backend/nutritionDB.py:87-126 | Normalisation returns a product exactly when the request succeeded, the status is 200, and `product_name` or `product_name_en` is truthy. The name falls back from `product_name` to `product_name_en`, and the image from `image_front_url` to `image_url`. The nutrients come from the four `*_100g` keys. The source is "openfoodfacts", the stamp is the fetch time, and the record is keyed by the requested barcode. |
| Products.NonJsonAnswerIsNotFound | backend/nutritionDB.py:104-124 | An answer whose content type is not JSON has an empty payload, so it never yields a product. |
| Products.GetCached | backend/nutritionDB.py:129-135 | A cache read returns a row exactly when the barcode is cached, and that row is the cached one. |
| Products.Upsert | backend/nutritionDB.py:138-160 | `INSERT OR REPLACE` on the barcode primary key adds or replaces the whole entry for that barcode. Every other barcode keeps its entry. |
| Products.UpsertThenGet | backend/nutritionDB.py:141-158 | Reading back the upserted barcode gives the upserted row. Any other barcode reads as before. |
| Products.LookupLocalFirst | backend/nutritionDB.py:163-173 | A hit returns the cached row with no fetch and no cache write. A miss always fetches. A successful fetch is cached under the barcode and returned. A failed fetch returns None and leaves the cache unchanged. Existing entries are never altered. |
| Products.LookupHitIgnoresFetch | backend/nutritionDB.py:163-166 | On a hit, the Open Food Facts answer has no effect on the outcome. |
| Products.LookupTwice | backend/nutritionDB.py:163-171 | After a lookup finds a product, the next lookup of that barcode is a hit that returns the same product without fetching. |
| Products.LookupPreservesCacheWf | backend/nutritionDB.py:163-173 | The cache stays well formed: each row sits under its own barcode, has a truthy name and comes from Open Food Facts. Every product a lookup returns carries the requested barcode and a truthy name. |
| Products.GetProduct | backend/nutritionDB.py:184-194 | A barcode that strips to nothing gets 400 "barcode is required" with no lookup and no change. Otherwise the cache-first lookup runs: a found product is returned, and a miss gets 404 "not found". |
| Products.GetProductFindsItsBarcode | backend/nutritionDB.py:184-194 | On a well-formed cache, a found product is the one for the stripped barcode, and the cache stays well formed. |
| Scans.AppendRow | backend/nutritionDB.py:230-240 | The insert appends exactly one row after the existing ones. The row's id is the next AUTOINCREMENT value, and that value becomes the counter. |
| Scans.AddScan | backend/nutritionDB.py:197-243 | A blank barcode is refused with 400 "barcode is required": nothing is stored and nothing is fetched. An accepted scan appends exactly one row with a fresh id, the write time and the stripped barcode. Earlier rows are unchanged, and the response carries the new id and timestamp. A fetch happens only when all six optional fields are absent and the barcode is not cached. If any field is supplied, the row holds exactly the client's values and the cache is untouched. Cached entries are never altered. |
| Scans.AddScanAutoFill | backend/nutritionDB.py:219-228 | With all six fields absent, the row takes name, nutrients and image from the product the cache-first lookup finds. If it finds none, those fields stay NULL. The cache changes exactly as the lookup changes it. |
| Scans.AddScanIgnoresFetch | backend/nutritionDB.py:219-221 | When any field is supplied or the barcode is cached, the Open Food Facts answer has no effect on `add_scan`. |
| Scans.AddScanPreservesTableWf | backend/nutritionDB.py:230-243 | The new id is larger than every existing id, and ids stay increasing and bounded by the counter. |
| Scans.AddScanPreservesCacheWf | backend/nutritionDB.py:219-228 | Auto-fill keeps the cache well formed. A row filled from a found product always has a truthy name. |
| Scans.NullBarcodeIsStoredAsNone | backend/nutritionDB.py:205-207 | A JSON `null` barcode becomes the text "None", which is not blank, so the scan is accepted and stored under barcode "None". |
| Scans.ListScans | backend/nutritionDB.py:246-268 | The route returns at most 200 rows, and exactly min(200, number of selected rows). The rows are a sub-multiset of the selected rows, so no row appears more often than it does in the table, and they come in non-increasing `ts` order. With a truthy date, every row's first ten `ts` characters equal it. No selected row that was left out is newer than a returned one. |
| Scans.SummaryToday | backend/nutritionDB.py:271-291 | `scans` counts every row whose date prefix is `today`, including rows with NULL nutrients. Each total is the sum of that column's non-NULL values over those rows, or 0 if there are none. |
| Scans.AddScanSummary | backend/nutritionDB.py:271-291 | An accepted scan whose UTC write date equals `today` raises the count by one and each total by the stored value, if any. Any other call leaves the summary unchanged. |
| Scans.BareScanCountsButAddsNothing | backend/nutritionDB.py:278-283 | A bare scan that auto-fill cannot fill raises today's count but no total. |
| Scans.UtcScanMissesNextLocalDay | backend/nutritionDB.py:273-285 | The write time is UTC (line 209) and the query date is local. A scan written at 23:30 UTC on one day is therefore absent from the next local day's summary. |
| Scans.SummaryMatchesListing | backend/nutritionDB.py:246-291 | When today's rows fit on one page, `list_scans?date=today` returns as many rows as `summary_today` counts, and their nutrients add up to its totals. |
| Query.DatePrefix | backend/nutritionDB.py:257 | `substr(ts, 1, 10)` is the first ten characters of `ts`, or all of a shorter `ts`. |
| Query.OnDate | backend/nutritionDB.py:257 | The date filter keeps every row whose ten-character prefix equals the date, as many times as the table holds it, and no other row. |
| Query.OnDateAppend | backend/nutritionDB.py:285 | Filtering a table with a row appended is filtering the table, then the row. |
| Query.LexLeTotal | backend/nutritionDB.py:258 | Any two timestamps are ordered under the BINARY collation. |
| Query.LexLeTransitive | backend/nutritionDB.py:258 | The collation order is transitive. |
| Query.LexLeAntisymmetric | backend/nutritionDB.py:258 | Two timestamps that are each at most the other are equal. |
| Query.Insert | backend/nutritionDB.py:258 | Inserting into the ordering adds exactly that one row. |
| Query.SortDesc | backend/nutritionDB.py:258 | `ORDER BY ts DESC` returns a permutation of its input in non-increasing `ts` order. |
| Query.PageSpec | backend/nutritionDB.py:253-264 | `ORDER BY ts DESC LIMIT 200` returns min(200, selected) rows in non-increasing order, as a sub-multiset of the selection. No omitted row is newer than a returned one. With a truthy date, all rows carry that date. |
| Query.EmptyDateIsNoFilter | backend/nutritionDB.py:253 | An empty `date` argument is falsy, so it lists the same rows as no argument. |
| Query.SqlSum | backend/nutritionDB.py:279-282 | SQL `SUM` is NULL exactly when every value in the column is NULL. |
| Query.CoalescedSumIsSumPresent | backend/nutritionDB.py:279-282 | `COALESCE(SUM(col), 0)` equals the sum of the non-NULL values, and 0 if there are none. |
| Query.SumPresentAppend | backend/nutritionDB.py:279-282 | A column sum over two row sequences is the sum of the two column sums. |
| Query.SumPresentSortDesc | backend/nutritionDB.py:279-282 | Sorting the rows by `ts` does not change a column sum. |
| Query.Summarize | backend/nutritionDB.py:276-291 | The summary carries the queried date, counts every row on that date, and gives each total as the sum of that column's non-NULL values over those rows. |
| Query.SummarizeAppend | backend/nutritionDB.py:276-288 | One more row changes the summary only if it is dated today. If it is, the count rises by one and each total by the row's value. |
| Query.SummaryAgreesWithPage | backend/nutritionDB.py:253-288 | When a day's rows fit on one page, the page for that date has as many rows as the summary counts, with the same totals. |
| LegacyScans.AddScan | backend/app.py:38-65 | A blank barcode is refused with 400 "barcode is required" and nothing changes. Otherwise exactly one row is appended after the existing ones. It has the next id, the write time, the stripped barcode, and the client's name and nutrients, with absent ones NULL. There is no auto-fill. The response carries the new id and timestamp. |
| LegacyScans.AddScanPreservesLegacyTableWf | backend/app.py:55-65 | The new id is larger than every existing id, and the table stays well formed. |
| LegacyScans.ListScans | backend/app.py:67-86 | The route returns min(200, selected) rows, a sub-multiset of the selected rows, in non-increasing `ts` order. With a truthy date, every row's ten-character prefix equals the date. No omitted row is newer than a returned one. |
| LegacyScans.SummaryToday | backend/app.py:88-105 | `scans` counts today's rows, and each total is the sum of the non-NULL values of today's rows, or 0 if there are none. |
| LegacyScans.AddScanLegacySummary | backend/app.py:93-105 | An accepted scan dated today raises the count by one and each total by the value the client sent. Any other call leaves the summary unchanged. |
| Compat.AddScanRefinesLegacy | backend/nutritionDB.py:205-243 | Unless auto-fill finds a product for a non-blank bare barcode, the newer `add_scan` gives the older one's response and leaves the scan table (without `image_url`) in the older one's state. This covers every blank barcode, which both stores refuse before any lookup. |
| Compat.AutoFillDiffersFromLegacy | backend/nutritionDB.py:219-228 | On a well-formed cache, when auto-fill finds a product for a bare barcode, from the cache or from Open Food Facts, the newer store stores its truthy name and the older one stores none. Both give the same response. Together with `Compat.AddScanRefinesLegacy`, the stores differ exactly when auto-fill finds a product. |
| Compat.ListScansRefinesLegacy | backend/app.py:67-86 | The newer `list_scans`, without `image_url`, equals the older `list_scans`. |
| Compat.SummaryRefinesLegacy | backend/app.py:88-105 | `summary_today` gives the same answer on both stores. |

## Left out

- Flask routing, request parsing, JSON serialisation, CORS and the `/api/status` route. The `/api/status` route only reports the clock. Responses are small datatypes with a status code and an error string.
- SQLite connections, `init_db` schema creation, the `ALTER TABLE` migration, indexes and the WAL/PRAGMA settings. They do not change which rows a route returns or what it computes. An index such as `idx_scans_ts` can change the order among rows with equal timestamps.
- The real `requests.get` call, its timeout, and an invalid JSON body raising from `r.json()`. The request is modelled as the `Fetch` parameter.
- `datetime.utcnow()` and `date.today()`. They are the `ts`, `today` and `Fetch.at` parameters, and clocks and time zones are not modelled.
- Floating-point REAL arithmetic. Nutrients are exact `real` values, and the sums are exact.
- JSON values of the wrong type. A non-string name, or a non-number nutrient stored through SQLite type affinity, is outside the model: optional fields are typed. A barcode is modelled as its `str()` text.
- The older store crashing on a JSON `null` body. `app.py` has no `or {}` after `get_json`. The model assumes a JSON object.
- AUTOINCREMENT exhaustion at the 64-bit rowid limit. The id counter is unbounded.
- The tie order among equal timestamps in `ORDER BY ts DESC`. SQLite leaves it unspecified. The model fixes one order. The listing contracts state only non-increasing order. `Compat.ListScansRefinesLegacy` is the exception, described below.
- Compat.ListScansRefinesLegacy: the equality of the two listings rests on the model's shared tie rule, under which earlier rows come first among equal timestamps. In the program, the newer store has the `idx_scans_ts` index and the older one has no index, so SQLite may order ties differently in the two stores. Only the same rows in the same non-increasing `ts` order are guaranteed to agree.
- The browser client, including its lookup adapter, CSV/JSON export, display rounding, connectivity flag and theme. Its code is not part of this model.
- `updated_at` and `source` of a product are stored in the cache and returned by `get_product` on a hit and on a miss. The model carries both: a fetched product has source "openfoodfacts" and the fetch time as its stamp, and the cache keeps them. Only the time itself is not modelled, because it is the `Fetch.at` parameter.
- Concurrency and route atomicity. Each route is modelled as one atomic step. In the code, `add_scan` runs its cache read, cache upsert and scan insert on three separate connections, each committed on its own, with an Open Food Facts request in between. That request has a 6 s connect/read timeout. `app.run` serves requests on threads, so another request can change the database between these steps. The model does not cover that interleaving.
- A locked database. `sqlite3.connect(..., timeout=5)` and the statements after it can raise when another writer holds the lock past the timeout, which gives a 500 response. The model assumes every statement succeeds.
- A missing `requests` package. `import requests` inside `fetch_openfoodfacts` is outside its `try`, so without the package every cache miss raises and `add_scan` and `get_product` fail with a 500 before anything is stored. The model treats the fetch as always callable, and a failed request as `None`.
