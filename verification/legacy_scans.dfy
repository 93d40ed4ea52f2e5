/**
 The older scan store of `backend/app.py`: the same three routes over a
 `scans` table without an `image_url` column, with no product cache and no
 auto-fill. The stored row carries exactly the fields the client sent.
 */
module LegacyScans {
  import opened Api
  import opened Query

  /** A row of the older `scans` table. */
  datatype LegacyRow = LegacyRow(
    id: nat,
    ts: string,
    barcode: string,
    name: Option<string>,
    macros: Macros)

  function LegacyRowTs(r: LegacyRow): string { r.ts }

  function LegacyRowMacros(r: LegacyRow): Macros { r.macros }

  /** Rows in insertion order and the AUTOINCREMENT counter. */
  datatype LegacyTable = LegacyTable(rows: seq<LegacyRow>, lastId: nat)

  function LegacyRowId(r: LegacyRow): nat { r.id }

  ghost predicate LegacyTableWf(t: LegacyTable) {
    IdsWf(t.rows, LegacyRowId, t.lastId)
  }

  datatype LegacyResult = LegacyResult(table: LegacyTable, response: ScanResponse)

  /** `POST /api/scan` of the older store: a barcode that strips to nothing
      is refused with 400; otherwise one row is appended holding the
      stripped barcode, the write time, a fresh id and the client's name
      and nutrients as sent (absent ones NULL). Other rows are untouched. */
  function AddScan(t: LegacyTable, req: ScanRequest, ts: string): (r: LegacyResult)
    ensures r.response.Rejected? <==> CleanBarcode(req) == []
    ensures r.response.Rejected? ==> r == LegacyResult(t, Rejected(400, BarcodeRequired))
    ensures r.response.Accepted? ==>
              && r.response == Accepted(t.lastId + 1, ts)
              && r.table.lastId == t.lastId + 1
              && r.table.rows == t.rows + [LegacyRow(t.lastId + 1, ts, CleanBarcode(req), req.name, req.macros)]
  {
    var barcode := CleanBarcode(req);
    if barcode == [] then LegacyResult(t, Rejected(400, BarcodeRequired))
    else
      var row := LegacyRow(t.lastId + 1, ts, barcode, req.name, req.macros);
      LegacyResult(LegacyTable(t.rows + [row], row.id), Accepted(row.id, ts))
  }

  /** The id handed out is larger than every id before it, so the table
      stays well formed. */
  lemma AddScanPreservesLegacyTableWf(t: LegacyTable, req: ScanRequest, ts: string)
    requires LegacyTableWf(t)
    ensures var r := AddScan(t, req, ts);
            && LegacyTableWf(r.table)
            && (r.response.Accepted? ==> forall x :: x in t.rows ==> x.id < r.response.id)
  {
  }

  /** `GET /api/scans[?date=YYYY-MM-DD]` of the older store. */
  function ListScans(t: LegacyTable, date: Option<string>): (r: seq<LegacyRow>)
    ensures |r| == (if |Selected(t.rows, LegacyRowTs, date)| < PageSize then |Selected(t.rows, LegacyRowTs, date)| else PageSize)
    ensures SortedDesc(r, LegacyRowTs)
    ensures multiset(r) <= multiset(Selected(t.rows, LegacyRowTs, date))
    ensures Truthy(date) ==> forall x :: x in r ==> DatePrefix(x.ts) == date.value
    ensures forall x, y :: x in multiset(Selected(t.rows, LegacyRowTs, date)) - multiset(r) && y in r ==> LexLe(x.ts, y.ts)
  {
    PageSpec(t.rows, LegacyRowTs, date);
    Page(t.rows, LegacyRowTs, date)
  }

  /** `GET /api/summary/today` of the older store. */
  function SummaryToday(t: LegacyTable, today: string): (r: Summary)
    ensures r.date == today
    ensures r.scans == |OnDate(t.rows, LegacyRowTs, today)|
    ensures forall n :: TotalOf(r, n) == SumPresent(OnDate(t.rows, LegacyRowTs, today), LegacyRowMacros, n)
  {
    var r := Summarize(t.rows, LegacyRowTs, LegacyRowMacros, today);
    assert forall n :: TotalOf(r, n) == SumPresent(OnDate(t.rows, LegacyRowTs, today), LegacyRowMacros, n) by {
      forall n ensures TotalOf(r, n) == SumPresent(OnDate(t.rows, LegacyRowTs, today), LegacyRowMacros, n) {
        TotalOfSummarize(t.rows, LegacyRowTs, LegacyRowMacros, today, n);
      }
    }
    r
  }

  /** An accepted scan dated `today` raises the older store's count by one
      and each total by the value the client sent, if any; any other scan
      leaves the summary as it was. */
  lemma AddScanLegacySummary(t: LegacyTable, req: ScanRequest, ts: string, today: string)
    ensures var r := AddScan(t, req, ts);
            var before := SummaryToday(t, today);
            var after := SummaryToday(r.table, today);
            if r.response.Accepted? && DatePrefix(ts) == today then
              && after.scans == before.scans + 1
              && forall n :: TotalOf(after, n) == TotalOf(before, n) + Coalesce(Get(req.macros, n), 0.0)
            else after == before
  {
    var r := AddScan(t, req, ts);
    if r.response.Accepted? {
      var row := LegacyRow(t.lastId + 1, ts, CleanBarcode(req), req.name, req.macros);
      SummarizeAppend(t.rows, row, LegacyRowTs, LegacyRowMacros, today);
    }
  }
}
