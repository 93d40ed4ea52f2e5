/**
 How the newer store (`backend/nutritionDB.py`) relates to the older one
 (`backend/app.py`). Forgetting the `image_url` column, the newer store
 behaves exactly like the older one on every read, and on every write
 except a bare barcode for which the cache-first lookup finds a product.
 */
module Compat {
  import opened Api
  import opened Query
  import opened Products
  import opened Scans
  import opened LegacyScans

  /** A newer row without its `image_url` column. */
  function ProjectRow(r: ScanRow): LegacyRow {
    LegacyRow(r.id, r.ts, r.barcode, r.name, r.macros)
  }

  function ProjectTable(t: ScanTable): LegacyTable {
    LegacyTable(MapSeq(t.rows, ProjectRow), t.lastId)
  }

  /** Unless auto-fill finds a product for a non-blank bare barcode, the
      newer `add_scan` answers as the older one does and leaves the projected
      scan table in the same state; a blank barcode is refused by both before
      any lookup. */
  lemma AddScanRefinesLegacy(db: Db, req: ScanRequest, ts: string, fetch: Fetch)
    requires CleanBarcode(req) == [] || !AllAbsent(req) || LookupLocalFirst(db.products, CleanBarcode(req), fetch).product.None?
    ensures var newer := Scans.AddScan(db, req, ts, fetch);
            var older := LegacyScans.AddScan(ProjectTable(db.scans), req, ts);
            && newer.response == older.response
            && ProjectTable(newer.db.scans) == older.table
  {
    var newer := Scans.AddScan(db, req, ts, fetch);
    if newer.response.Accepted? {
      MapSeqAppend(db.scans.rows, [LastRow(newer.db.scans)], ProjectRow);
      assert newer.db.scans.rows == db.scans.rows + [LastRow(newer.db.scans)];
    }
  }

  /** Where the two differ: when auto-fill finds a product for a bare
      barcode, in a well-formed cache or from Open Food Facts, the newer
      store keeps its truthy name and the older one stores none. With
      `AddScanRefinesLegacy`, the two stores part ways exactly then. */
  lemma AutoFillDiffersFromLegacy(db: Db, req: ScanRequest, ts: string, fetch: Fetch)
    requires CacheWf(db.products)
    requires AllAbsent(req) && CleanBarcode(req) != []
    requires LookupLocalFirst(db.products, CleanBarcode(req), fetch).product.Some?
    ensures var newer := Scans.AddScan(db, req, ts, fetch);
            var older := LegacyScans.AddScan(ProjectTable(db.scans), req, ts);
            && newer.response == older.response
            && ProjectTable(newer.db.scans) != older.table
            && Truthy(LastRow(newer.db.scans).name)
            && older.table.rows[|db.scans.rows|].name.None?
  {
    var newer := Scans.AddScan(db, req, ts, fetch);
    var older := LegacyScans.AddScan(ProjectTable(db.scans), req, ts);
    var i := |db.scans.rows|;
    LookupPreservesCacheWf(db.products, CleanBarcode(req), fetch);
    AddScanAutoFill(db, req, ts, fetch);
    assert Truthy(LastRow(newer.db.scans).name);
    assert ProjectTable(newer.db.scans).rows[i].name.Some?;
    assert older.table.rows[i].name.None?;
  }

  /** `list_scans` of the newer store, projected, is `list_scans` of the older. */
  lemma ListScansRefinesLegacy(t: ScanTable, date: Option<string>)
    ensures MapSeq(Scans.ListScans(t, date), ProjectRow) == LegacyScans.ListScans(ProjectTable(t), date)
  {
    PageMap(t.rows, ProjectRow, RowTs, LegacyRowTs, date);
  }

  /** `summary_today` gives the same answer on both stores. */
  lemma SummaryRefinesLegacy(t: ScanTable, today: string)
    ensures Scans.SummaryToday(t, today) == LegacyScans.SummaryToday(ProjectTable(t), today)
  {
    SummarizeMap(t.rows, ProjectRow, RowTs, LegacyRowTs, RowMacros, LegacyRowMacros, today);
  }
}
