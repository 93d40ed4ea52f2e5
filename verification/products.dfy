/**
 The product cache of `backend/nutritionDB.py`: the `products` table, one
 row per barcode, filled on demand from Open Food Facts.

 The HTTP call itself is not modelled. A `Fetch` stands for one call to
 `https://world.openfoodfacts.net/api/v2/product/<barcode>`: the answer it
 got (or none, when `requests` raised), and the UTC time at which the
 normalised record was stamped.
 */
module Products {
  import opened Text
  import opened Api

  /** The `nutriments` object of an Open Food Facts product. Only the four
      per-100 g keys the backend reads are kept; `None` is an absent key
      or JSON `null`. */
  datatype OffNutriments = OffNutriments(
    energyKcal100g: Option<real>,
    proteins100g: Option<real>,
    carbohydrates100g: Option<real>,
    fat100g: Option<real>)

  /** The `product` object of an Open Food Facts answer, reduced to the keys
      the backend reads. `nutriments` is `None` when that key is absent or
      falsy, which `or {}` turns into an empty object. */
  datatype OffProduct = OffProduct(
    productName: Option<string>,
    productNameEn: Option<string>,
    imageFrontUrl: Option<string>,
    imageUrl: Option<string>,
    nutriments: Option<OffNutriments>)

  /** An HTTP answer: its status code, whether its content type starts with
      `application/json`, and the payload's `product` (`None` when absent
      or falsy). */
  datatype OffResponse = OffResponse(status: int, json: bool, product: Option<OffProduct>)

  /** One call of the Open Food Facts API. `response` is `None` when the
      request raised; `at` is `datetime.utcnow().isoformat()` when the
      result is built. */
  datatype Fetch = Fetch(response: Option<OffResponse>, at: string)

  const OffSource := "openfoodfacts"

  /** A row of the `products` table, keyed by `barcode`. */
  datatype Product = Product(
    barcode: string,
    name: Option<string>,
    macros: Macros,
    imageUrl: Option<string>,
    source: Option<string>,
    updatedAt: Option<string>)

  /** The `products` table: barcode (the primary key) to row. */
  type Cache = map<string, Product>

  const EmptyOffProduct := OffProduct(None, None, None, None, None)

  /** `payload.get("product") or {}`, where a non-JSON answer has the empty payload. */
  function ProductOf(r: OffResponse): OffProduct {
    if r.json && r.product.Some? then r.product.value else EmptyOffProduct
  }

  /** `product.get("nutriments") or {}`, read into the four nutrient columns. */
  function MacrosOf(p: OffProduct): Macros {
    match p.nutriments
    case None => NoMacros
    case Some(n) => Macros(n.energyKcal100g, n.proteins100g, n.carbohydrates100g, n.fat100g)
  }

  /** `fetch_openfoodfacts`: a product record, or `None` when the request
      failed, the status is not 200, or neither name field is truthy. The
      name falls back from `product_name` to `product_name_en`, the image
      from `image_front_url` to `image_url`. */
  function FetchOpenFoodFacts(barcode: string, fetch: Fetch): (r: Option<Product>)
    ensures r.Some? <==>
              && fetch.response.Some?
              && fetch.response.value.status == 200
              && (Truthy(ProductOf(fetch.response.value).productName)
                  || Truthy(ProductOf(fetch.response.value).productNameEn))
    ensures r.Some? ==>
              var p := ProductOf(fetch.response.value);
              && r.value.barcode == barcode
              && Truthy(r.value.name)
              && r.value.name == (if Truthy(p.productName) then p.productName else p.productNameEn)
              && r.value.imageUrl == (if Truthy(p.imageFrontUrl) then p.imageFrontUrl else p.imageUrl)
              && r.value.macros == MacrosOf(p)
              && r.value.source == Some(OffSource)
              && r.value.updatedAt == Some(fetch.at)
  {
    match fetch.response
    case None => None
    case Some(resp) =>
      if resp.status != 200 then None
      else
        var p := ProductOf(resp);
        var result := Product(
          barcode,
          OrElse(p.productName, p.productNameEn),
          MacrosOf(p),
          OrElse(p.imageFrontUrl, p.imageUrl),
          Some(OffSource),
          Some(fetch.at));
        if !Truthy(result.name) then None else Some(result)
  }

  /** An answer that is not JSON never yields a product: its payload is empty. */
  lemma NonJsonAnswerIsNotFound(barcode: string, fetch: Fetch)
    requires fetch.response.Some? && !fetch.response.value.json
    ensures FetchOpenFoodFacts(barcode, fetch).None?
  {
  }

  /** `get_cached_product`. */
  function GetCached(cache: Cache, barcode: string): (r: Option<Product>)
    ensures r.Some? <==> barcode in cache
    ensures r.Some? ==> r.value == cache[barcode]
  {
    if barcode in cache then Some(cache[barcode]) else None
  }

  /** `upsert_product`: `INSERT OR REPLACE` on the primary key, which
      replaces the whole row for that barcode and touches no other. */
  function Upsert(cache: Cache, p: Product): (c: Cache)
    ensures c.Keys == cache.Keys + {p.barcode}
    ensures c[p.barcode] == p
    ensures forall b :: b in cache && b != p.barcode ==> c[b] == cache[b]
  {
    cache[p.barcode := p]
  }

  /** Reading back an upserted barcode gives the upserted row; every other
      barcode reads as before. */
  lemma UpsertThenGet(cache: Cache, p: Product, b: string)
    ensures GetCached(Upsert(cache, p), b) == if b == p.barcode then Some(p) else GetCached(cache, b)
  {
  }

  /** The outcome of `lookup_product_local_first`: the cache afterwards, the
      product returned, and whether Open Food Facts was asked. */
  datatype Lookup = Lookup(cache: Cache, product: Option<Product>, fetched: bool)

  /** `lookup_product_local_first`: a cached row is returned as is; on a miss
      Open Food Facts is asked, and only a product it returns is cached. */
  function LookupLocalFirst(cache: Cache, barcode: string, fetch: Fetch): (l: Lookup)
    ensures barcode in cache ==> l == Lookup(cache, Some(cache[barcode]), false)
    ensures barcode !in cache ==> l.fetched && l.product == FetchOpenFoodFacts(barcode, fetch)
    ensures barcode !in cache && l.product.Some? ==>
              && l.cache.Keys == cache.Keys + {barcode}
              && l.cache[barcode] == l.product.value
    ensures l.product.None? ==> l.cache == cache
    ensures forall b :: b in cache ==> b in l.cache && l.cache[b] == cache[b]
  {
    var cached := GetCached(cache, barcode);
    if cached.Some? then Lookup(cache, cached, false)
    else
      var fetched := FetchOpenFoodFacts(barcode, fetch);
      if fetched.Some? then Lookup(Upsert(cache, fetched.value), fetched, true)
      else Lookup(cache, None, true)
  }

  /** On a hit the answer Open Food Facts would give makes no difference. */
  lemma LookupHitIgnoresFetch(cache: Cache, barcode: string, f1: Fetch, f2: Fetch)
    requires barcode in cache
    ensures LookupLocalFirst(cache, barcode, f1) == LookupLocalFirst(cache, barcode, f2)
  {
  }

  /** Once a lookup has found a product, the next lookup of that barcode is
      a cache hit that returns the same product without asking again. */
  lemma LookupTwice(cache: Cache, barcode: string, f1: Fetch, f2: Fetch)
    requires LookupLocalFirst(cache, barcode, f1).product.Some?
    ensures var first := LookupLocalFirst(cache, barcode, f1);
            LookupLocalFirst(first.cache, barcode, f2) == Lookup(first.cache, first.product, false)
  {
  }

  /** Every cached row sits under its own barcode, has a truthy name and
      came from Open Food Facts: the only rows ever upserted are ones
      `fetch_openfoodfacts` accepted. */
  ghost predicate CacheWf(cache: Cache) {
    forall b :: b in cache ==>
      && cache[b].barcode == b
      && Truthy(cache[b].name)
      && cache[b].source == Some(OffSource)
  }

  lemma LookupPreservesCacheWf(cache: Cache, barcode: string, fetch: Fetch)
    requires CacheWf(cache)
    ensures CacheWf(LookupLocalFirst(cache, barcode, fetch).cache)
    ensures LookupLocalFirst(cache, barcode, fetch).product.Some? ==>
              var p := LookupLocalFirst(cache, barcode, fetch).product.value;
              p.barcode == barcode && Truthy(p.name)
  {
  }

  datatype ProductResponse = ProductFound(product: Product) | ProductError(status: nat, error: string)

  /** The outcome of the `get_product` route. */
  datatype ProductResult = ProductResult(cache: Cache, response: ProductResponse, fetched: bool)

  /** `GET /api/product/<barcode>`: 400 for a blank barcode (no lookup),
      404 when the cache-first lookup finds nothing, else the product. */
  function GetProduct(cache: Cache, rawBarcode: string, fetch: Fetch): (r: ProductResult)
    ensures Strip(rawBarcode) == [] ==> r == ProductResult(cache, ProductError(400, BarcodeRequired), false)
    ensures Strip(rawBarcode) != [] ==>
              var l := LookupLocalFirst(cache, Strip(rawBarcode), fetch);
              && r.cache == l.cache
              && r.fetched == l.fetched
              && (r.response.ProductFound? <==> l.product.Some?)
              && (l.product.Some? ==> r.response.product == l.product.value)
              && (l.product.None? ==> r.response == ProductError(404, "not found"))
  {
    var barcode := Strip(rawBarcode);
    if barcode == [] then ProductResult(cache, ProductError(400, BarcodeRequired), false)
    else
      var l := LookupLocalFirst(cache, barcode, fetch);
      match l.product
      case None => ProductResult(l.cache, ProductError(404, "not found"), l.fetched)
      case Some(p) => ProductResult(l.cache, ProductFound(p), l.fetched)
  }

  /** A found product is the one for the stripped barcode, with a truthy name. */
  lemma GetProductFindsItsBarcode(cache: Cache, rawBarcode: string, fetch: Fetch)
    requires CacheWf(cache)
    ensures var r := GetProduct(cache, rawBarcode, fetch);
            && CacheWf(r.cache)
            && (r.response.ProductFound? ==>
                  r.response.product.barcode == Strip(rawBarcode) && Truthy(r.response.product.name))
  {
    if Strip(rawBarcode) != [] {
      LookupPreservesCacheWf(cache, Strip(rawBarcode), fetch);
    }
  }
}
