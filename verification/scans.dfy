/**
 The scan store of `backend/nutritionDB.py`: the append-only `scans` table
 with its `add_scan`, `list_scans` and `summary_today` routes, and the
 product cache that `add_scan` consults to fill in a bare barcode.

 Each route is a pure function of the database, the request and the
 outside world it reads: `ts` is `datetime.utcnow().isoformat()` at the
 time of the write, `today` is the local `date.today().isoformat()` at the
 time of the query, and `fetch` is what Open Food Facts answers. The two
 dates are separate inputs: nothing ties the UTC write time to the local
 query date.
 */
module Scans {
  import opened Text
  import opened Api
  import opened Query
  import opened Products

  /** A row of the `scans` table. */
  datatype ScanRow = ScanRow(
    id: nat,
    ts: string,
    barcode: string,
    name: Option<string>,
    macros: Macros,
    imageUrl: Option<string>)

  function RowTs(r: ScanRow): string { r.ts }

  function RowMacros(r: ScanRow): Macros { r.macros }

  /** The `scans` table: its rows in insertion order, and the AUTOINCREMENT
      counter, the largest id the table has ever handed out. */
  datatype ScanTable = ScanTable(rows: seq<ScanRow>, lastId: nat)

  function RowId(r: ScanRow): nat { r.id }

  ghost predicate TableWf(t: ScanTable) {
    IdsWf(t.rows, RowId, t.lastId)
  }

  /** The `INSERT` of `add_scan`: the new row takes the next AUTOINCREMENT id. */
  function AppendRow(t: ScanTable, ts: string, barcode: string, name: Option<string>, macros: Macros, imageUrl: Option<string>): (r: ScanTable)
    ensures r.lastId == t.lastId + 1
    ensures |r.rows| == |t.rows| + 1 && r.rows[..|t.rows|] == t.rows
    ensures r.rows[|t.rows|] == ScanRow(t.lastId + 1, ts, barcode, name, macros, imageUrl)
  {
    ScanTable(t.rows + [ScanRow(t.lastId + 1, ts, barcode, name, macros, imageUrl)], t.lastId + 1)
  }

  /** The whole SQLite file: the scan table and the product cache. */
  datatype Db = Db(scans: ScanTable, products: Cache)

  /** The outcome of `add_scan`: the database afterwards, the response, and
      whether Open Food Facts was asked. */
  datatype AddResult = AddResult(db: Db, response: ScanResponse, fetched: bool)

  /** The last row of a non-empty table. */
  function LastRow(t: ScanTable): ScanRow
    requires |t.rows| > 0
  {
    t.rows[|t.rows| - 1]
  }

  /** `POST /api/scan`. A barcode that strips to nothing is refused with
      400 and changes nothing. Otherwise exactly one row is appended, with
      the stripped barcode, the write time and a fresh id. Its optional
      fields are the client's, except that when the client sent none of
      the six the cache-first lookup runs and, if it finds a product,
      supplies them. */
  function AddScan(db: Db, req: ScanRequest, ts: string, fetch: Fetch): (r: AddResult)
    ensures r.response.Rejected? <==> CleanBarcode(req) == []
    ensures r.response.Rejected? ==> r == AddResult(db, Rejected(400, BarcodeRequired), false)
    ensures r.response.Accepted? ==>
              && r.response == Accepted(db.scans.lastId + 1, ts)
              && r.db.scans.lastId == db.scans.lastId + 1
              && |r.db.scans.rows| == |db.scans.rows| + 1
              && r.db.scans.rows[..|db.scans.rows|] == db.scans.rows
              && LastRow(r.db.scans).id == r.response.id
              && LastRow(r.db.scans).ts == ts
              && LastRow(r.db.scans).barcode == CleanBarcode(req)
    ensures r.fetched ==> AllAbsent(req) && CleanBarcode(req) !in db.products
    ensures !AllAbsent(req) ==> !r.fetched && r.db.products == db.products
    ensures !AllAbsent(req) && r.response.Accepted? ==>
              && LastRow(r.db.scans).name == req.name
              && LastRow(r.db.scans).macros == req.macros
              && LastRow(r.db.scans).imageUrl == req.imageUrl
    ensures forall b :: b in db.products ==> b in r.db.products && r.db.products[b] == db.products[b]
  {
    var barcode := CleanBarcode(req);
    if barcode == [] then AddResult(db, Rejected(400, BarcodeRequired), false)
    else
      var lookup :=
        if AllAbsent(req) then LookupLocalFirst(db.products, barcode, fetch)
        else Lookup(db.products, None, false);
      var scans :=
        match lookup.product
        case Some(p) => AppendRow(db.scans, ts, barcode, p.name, p.macros, p.imageUrl)
        case None => AppendRow(db.scans, ts, barcode, req.name, req.macros, req.imageUrl);
      AddResult(Db(scans, lookup.cache), Accepted(scans.lastId, ts), lookup.fetched)
  }

  /** The auto-fill of a bare barcode: the stored row carries the fields of
      the product the cache-first lookup finds, and only NULLs when it
      finds none; the cache changes exactly as that lookup changes it. */
  lemma AddScanAutoFill(db: Db, req: ScanRequest, ts: string, fetch: Fetch)
    requires AllAbsent(req) && CleanBarcode(req) != []
    ensures var r := AddScan(db, req, ts, fetch);
            var l := LookupLocalFirst(db.products, CleanBarcode(req), fetch);
            var row := LastRow(r.db.scans);
            && r.db.products == l.cache
            && r.fetched == l.fetched
            && (l.product.Some? ==>
                  row.name == l.product.value.name
                  && row.macros == l.product.value.macros
                  && row.imageUrl == l.product.value.imageUrl)
            && (l.product.None? ==> row.name.None? && row.macros == NoMacros && row.imageUrl.None?)
  {
  }

  /** When the client supplies any field, or the barcode is already cached,
      the answer from Open Food Facts makes no difference to `add_scan`. */
  lemma AddScanIgnoresFetch(db: Db, req: ScanRequest, ts: string, f1: Fetch, f2: Fetch)
    requires !AllAbsent(req) || CleanBarcode(req) in db.products
    ensures AddScan(db, req, ts, f1) == AddScan(db, req, ts, f2)
  {
  }

  /** The id handed out is fresh, and the table stays well formed. */
  lemma AddScanPreservesTableWf(db: Db, req: ScanRequest, ts: string, fetch: Fetch)
    requires TableWf(db.scans)
    ensures var r := AddScan(db, req, ts, fetch);
            && TableWf(r.db.scans)
            && (r.response.Accepted? ==> forall x :: x in db.scans.rows ==> x.id < r.response.id)
  {
  }

  /** Auto-fill keeps the cache well formed, and a row filled from the cache
      always gets a truthy name. */
  lemma AddScanPreservesCacheWf(db: Db, req: ScanRequest, ts: string, fetch: Fetch)
    requires CacheWf(db.products)
    ensures var r := AddScan(db, req, ts, fetch);
            && CacheWf(r.db.products)
            && (r.response.Accepted? && AllAbsent(req) && LookupLocalFirst(db.products, CleanBarcode(req), fetch).product.Some?
                ==> Truthy(LastRow(r.db.scans).name))
  {
    if CleanBarcode(req) != [] && AllAbsent(req) {
      LookupPreservesCacheWf(db.products, CleanBarcode(req), fetch);
    }
  }

  /** `str(data.get("barcode", ""))` turns a JSON `null` barcode into the
      text "None", which is not blank: such a scan is stored under the
      barcode "None" rather than refused. */
  lemma NullBarcodeIsStoredAsNone(db: Db, req: ScanRequest, ts: string, fetch: Fetch)
    requires req.barcode == Null
    ensures AddScan(db, req, ts, fetch).response.Accepted?
    ensures LastRow(AddScan(db, req, ts, fetch).db.scans).barcode == "None"
  {
    assert !IsSpace('N');
    assert !IsSpace('e');
    assert Strip("None") == "None" by {
      StripUnique("None", 0, 4);
    }
  }

  /** `GET /api/scans[?date=YYYY-MM-DD]`: at most 200 rows of the table,
      each at most once, newest first; with a truthy date only rows whose first ten `ts`
      characters equal it, and no matching row left out is newer than one
      returned. */
  function ListScans(t: ScanTable, date: Option<string>): (r: seq<ScanRow>)
    ensures |r| == (if |Selected(t.rows, RowTs, date)| < PageSize then |Selected(t.rows, RowTs, date)| else PageSize)
    ensures SortedDesc(r, RowTs)
    ensures multiset(r) <= multiset(Selected(t.rows, RowTs, date))
    ensures Truthy(date) ==> forall x :: x in r ==> DatePrefix(x.ts) == date.value
    ensures forall x, y :: x in multiset(Selected(t.rows, RowTs, date)) - multiset(r) && y in r ==> LexLe(x.ts, y.ts)
  {
    PageSpec(t.rows, RowTs, date);
    Page(t.rows, RowTs, date)
  }

  /** `GET /api/summary/today`: totals and count over the rows whose date
      prefix is `today`. */
  function SummaryToday(t: ScanTable, today: string): (r: Summary)
    ensures r.date == today
    ensures r.scans == |OnDate(t.rows, RowTs, today)|
    ensures forall n :: TotalOf(r, n) == SumPresent(OnDate(t.rows, RowTs, today), RowMacros, n)
  {
    var r := Summarize(t.rows, RowTs, RowMacros, today);
    assert forall n :: TotalOf(r, n) == SumPresent(OnDate(t.rows, RowTs, today), RowMacros, n) by {
      forall n ensures TotalOf(r, n) == SumPresent(OnDate(t.rows, RowTs, today), RowMacros, n) {
        TotalOfSummarize(t.rows, RowTs, RowMacros, today, n);
      }
    }
    r
  }

  /** An accepted scan changes today's summary only if its UTC write time
      falls on `today`: then the count rises by one and each total by the
      stored value, if any. A refused scan changes nothing. */
  lemma AddScanSummary(db: Db, req: ScanRequest, ts: string, fetch: Fetch, today: string)
    ensures var r := AddScan(db, req, ts, fetch);
            var before := SummaryToday(db.scans, today);
            var after := SummaryToday(r.db.scans, today);
            if r.response.Accepted? && DatePrefix(ts) == today then
              && after.scans == before.scans + 1
              && forall n :: TotalOf(after, n) == TotalOf(before, n) + Coalesce(Get(LastRow(r.db.scans).macros, n), 0.0)
            else after == before
  {
    var r := AddScan(db, req, ts, fetch);
    if r.response.Accepted? {
      var row := LastRow(r.db.scans);
      assert r.db.scans.rows == db.scans.rows + [row];
      SummarizeAppend(db.scans.rows, row, RowTs, RowMacros, today);
    }
  }

  /** A scan stored without nutrients still counts as a scan of the day,
      but adds nothing to any total. */
  lemma BareScanCountsButAddsNothing(db: Db, req: ScanRequest, ts: string, fetch: Fetch, today: string)
    requires AllAbsent(req) && CleanBarcode(req) != []
    requires LookupLocalFirst(db.products, CleanBarcode(req), fetch).product.None?
    requires DatePrefix(ts) == today
    ensures var after := SummaryToday(AddScan(db, req, ts, fetch).db.scans, today);
            var before := SummaryToday(db.scans, today);
            after == before.(scans := before.scans + 1)
  {
    var r := AddScan(db, req, ts, fetch);
    AddScanAutoFill(db, req, ts, fetch);
    AddScanSummary(db, req, ts, fetch, today);
    var row := LastRow(r.db.scans);
    assert row.macros == NoMacros;
    var before := SummaryToday(db.scans, today);
    var after := SummaryToday(r.db.scans, today);
    CountOnlyChange(before, after);
  }

  /** The write date is UTC and the query date is local, so a scan written
      late in the UTC day is not part of the summary of a local day that
      has already moved on. */
  lemma UtcScanMissesNextLocalDay(db: Db, req: ScanRequest, fetch: Fetch)
    ensures var r := AddScan(db, req, "2024-03-01T23:30:00", fetch);
            SummaryToday(r.db.scans, "2024-03-02") == SummaryToday(db.scans, "2024-03-02")
  {
    var ts := "2024-03-01T23:30:00";
    assert DatePrefix(ts) == ts[..10] == "2024-03-01" != "2024-03-02";
    AddScanSummary(db, req, ts, fetch, "2024-03-02");
  }

  /** When today's rows fit on one page, the day's listing holds exactly as
      many rows as the summary counts, and they add up to its totals. */
  lemma SummaryMatchesListing(t: ScanTable, today: string)
    requires today != ""
    requires |OnDate(t.rows, RowTs, today)| <= PageSize
    ensures |ListScans(t, Some(today))| == SummaryToday(t, today).scans
    ensures forall n :: SumPresent(ListScans(t, Some(today)), RowMacros, n) == TotalOf(SummaryToday(t, today), n)
  {
    SummaryAgreesWithPage(t.rows, RowTs, RowMacros, today);
  }
}
