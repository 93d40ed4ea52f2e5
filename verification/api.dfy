/**
 Values shared by both scan-store backends: the JSON body a client posts to
 `/api/scan`, the nutrient columns, and the responses the routes return.
 HTTP plumbing is reduced to a status code and an error string.
 */
module Api {
  import opened Text

  datatype Option<+T> = None | Some(value: T)

  /** Python truthiness of an optional string: `None` and `""` are falsy. */
  predicate Truthy(v: Option<string>) {
    v.Some? && v.value != ""
  }

  /** Python's `a or b` on optional strings: `a` when it is truthy, else `b`. */
  function OrElse(a: Option<string>, b: Option<string>): (r: Option<string>)
    ensures Truthy(r) <==> Truthy(a) || Truthy(b)
  {
    if Truthy(a) then a else b
  }

  /** A key of the request body as `data.get(key)` sees it: absent, JSON
      `null`, or some other value, given by its Python `str()` rendering. */
  datatype JsonValue = Missing | Null | Present(text: string)

  /** `str(data.get("barcode", ""))`: an absent key becomes `""`, but a JSON
      `null` becomes the four-character string `"None"`. */
  function BarcodeText(v: JsonValue): string {
    match v
    case Missing => ""
    case Null => "None"
    case Present(t) => t
  }

  /** The four REAL nutrient columns; `None` is SQL NULL. */
  datatype Macros = Macros(calories: Option<real>, protein: Option<real>, carbs: Option<real>, fat: Option<real>)

  const NoMacros := Macros(None, None, None, None)

  /** The body of a POST to `/api/scan`. Each optional field is `None` when
      the key is absent or JSON `null`, exactly as `data.get(key)` reports it. */
  datatype ScanRequest = ScanRequest(
    barcode: JsonValue,
    name: Option<string>,
    macros: Macros,
    imageUrl: Option<string>)

  /** The client supplied none of the six optional fields. */
  predicate AllAbsent(req: ScanRequest) {
    req.name.None? && req.macros == NoMacros && req.imageUrl.None?
  }

  /** The barcode a route works with: the request's text, stripped. */
  function CleanBarcode(req: ScanRequest): string {
    Strip(BarcodeText(req.barcode))
  }

  const BarcodeRequired := "barcode is required"

  /** The response of `add_scan`: `{"ok": true, "id", "ts"}` or an error with its status. */
  datatype ScanResponse = Accepted(id: nat, ts: string) | Rejected(status: nat, error: string)

  /** The response of `summary_today`: the date queried, the four totals and the row count. */
  datatype Summary = Summary(date: string, calories: real, protein: real, carbs: real, fat: real, scans: nat)
}
