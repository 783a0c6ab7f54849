/** The product service: record building, the update map and the list
    response around the product repository. The repository and the Redis
    cache are outside the model; their answers arrive as parameters. */
module ProductService {
  import opened Common
  import Decimal

  /** A stored product as the repository returns it. The price is a float in
      the source; here it is only copied. */
  datatype ProductRecord = ProductRecord(
    id: nat,
    name: string,
    description: string,
    price: real,
    stock: int,
    category: string,
    isActive: bool)

  datatype CreateProductRequest = CreateProductRequest(
    name: string,
    description: string,
    price: real,
    stock: int,
    category: string)

  /** Absent pointers are `None`. */
  datatype UpdateProductRequest = UpdateProductRequest(
    name: string,
    description: string,
    price: Option<real>,
    stock: Option<int>,
    category: string,
    isActive: Option<bool>)

  datatype ProductQuery = ProductQuery(
    page: int,
    limit: int,
    category: string,
    minPrice: real,
    maxPrice: real,
    search: string)

  datatype ProductListResponse = ProductListResponse(
    products: seq<ProductRecord>,
    total: int,
    page: int,
    limit: int)

  type Updates = map<string, Value>

  datatype CacheWrite = CacheWrite(key: string, product: ProductRecord, ttlMinutes: nat)

  const ProductCacheTtlMinutes: nat := 10

  /** The zero value of a product, as `make` fills a fresh slice. */
  const ZeroProduct: ProductRecord := ProductRecord(0, "", "", 0.0, 0, "", false)

  /** The Redis key of one product. */
  function CacheKey(id: nat): (key: string)
    ensures |key| > 8 && key[..8] == "product:" && Decimal.Parse(key[8..]) == id
    ensures key[8..] == Decimal.Format(id)
  {
    Decimal.ParseFormat(id);
    assert ("product:" + Decimal.Format(id))[8..] == Decimal.Format(id);
    "product:" + Decimal.Format(id)
  }

  /** Two products never share a cache entry. */
  lemma CacheKeyInjective(a: nat, b: nat)
    requires CacheKey(a) == CacheKey(b)
    ensures a == b
  {
    assert CacheKey(a)[8..] == CacheKey(b)[8..];
  }

  /** CreateProduct: the request's fields are copied into an active product,
      which the repository inserts and numbers; an insert failure is
      returned. */
  function CreateProduct(req: CreateProductRequest, insert: ProductRecord -> Result<nat>)
    : (r: Result<ProductRecord>)
    ensures r.Ok? ==>
      && r.value.name == req.name && r.value.description == req.description
      && r.value.price == req.price && r.value.stock == req.stock
      && r.value.category == req.category && r.value.isActive
      && insert(r.value.(id := 0)) == Ok(r.value.id)
    ensures r.Err? ==>
      insert(ProductRecord(0, req.name, req.description, req.price, req.stock, req.category, true)) == Err(r.error)
  {
    var product := ProductRecord(0, req.name, req.description, req.price, req.stock, req.category, true);
    match insert(product)
    case Err(e) => Err(e)
    case Ok(id) => Ok(product.(id := id))
  }

  /** GetProduct: a cache hit is answered from the cache; otherwise the
      repository's answer is returned, and a found product is cached for ten
      minutes. */
  function GetProduct(id: nat, cache: map<string, ProductRecord>, fetched: Result<ProductRecord>)
    : (r: (Result<ProductRecord>, Option<CacheWrite>))
    ensures CacheKey(id) in cache ==> r == (Ok(cache[CacheKey(id)]), None)
    ensures CacheKey(id) !in cache ==> r.0 == fetched
    ensures r.1.Some? <==> CacheKey(id) !in cache && fetched.Ok?
    ensures r.1.Some? ==> r.1.value == CacheWrite(CacheKey(id), fetched.value, ProductCacheTtlMinutes)
  {
    var key := CacheKey(id);
    if key in cache then (Ok(cache[key]), None)
    else match fetched
      case Err(e) => (Err(e), None)
      case Ok(product) => (Ok(product), Some(CacheWrite(key, product, ProductCacheTtlMinutes)))
  }

  /** Whether `updates` is the update UpdateProduct derives from `req`: each
      string field when non-empty, each pointer field when present, with
      the request's value, and nothing else. */
  predicate IsProductUpdate(req: UpdateProductRequest, updates: Updates) {
    && ("name" in updates <==> req.name != "")
    && ("name" in updates ==> updates["name"] == Str(req.name))
    && ("description" in updates <==> req.description != "")
    && ("description" in updates ==> updates["description"] == Str(req.description))
    && ("price" in updates <==> req.price.Some?)
    && ("price" in updates ==> updates["price"] == Float(req.price.value))
    && ("stock" in updates <==> req.stock.Some?)
    && ("stock" in updates ==> updates["stock"] == Int(req.stock.value))
    && ("category" in updates <==> req.category != "")
    && ("category" in updates ==> updates["category"] == Str(req.category))
    && ("is_active" in updates <==> req.isActive.Some?)
    && ("is_active" in updates ==> updates["is_active"] == Bool(req.isActive.value))
    && updates.Keys <= {"name", "description", "price", "stock", "category", "is_active"}
  }

  /** Only one update map fits a request. */
  lemma {:induction false} ProductUpdateUnique(req: UpdateProductRequest, u1: Updates, u2: Updates)
    requires IsProductUpdate(req, u1) && IsProductUpdate(req, u2)
    ensures u1 == u2
  {
    assert u1.Keys == u2.Keys;
    forall k | k in u1 ensures u1[k] == u2[k] {
      assert k in {"name", "description", "price", "stock", "category", "is_active"};
    }
  }

  /** A request that sets nothing yields an empty update. */
  lemma {:induction false} EmptyRequestEmptyUpdate(updates: Updates)
    requires IsProductUpdate(UpdateProductRequest("", "", None, None, "", None), updates)
    ensures updates == map[]
  {
  }

  /** The update map of UpdateProduct, built by six conditional
      insertions. */
  method BuildProductUpdates(req: UpdateProductRequest) returns (updates: Updates)
    ensures IsProductUpdate(req, updates)
  {
    updates := map[];
    if req.name != "" {
      updates := updates["name" := Str(req.name)];
    }
    if req.description != "" {
      updates := updates["description" := Str(req.description)];
    }
    if req.price.Some? {
      updates := updates["price" := Float(req.price.value)];
    }
    if req.stock.Some? {
      updates := updates["stock" := Int(req.stock.value)];
    }
    if req.category != "" {
      updates := updates["category" := Str(req.category)];
    }
    if req.isActive.Some? {
      updates := updates["is_active" := Bool(req.isActive.value)];
    }
  }

  /** UpdateProduct: a failed existence check is returned as is and nothing
      is written. Otherwise the update map goes to the repository; if that
      succeeds the product's cache entry is evicted and the re-read product
      returned. `sent` is the update the repository received, `evicted` the
      cache key that was deleted. */
  method UpdateProduct(
    id: nat,
    req: UpdateProductRequest,
    existing: Result<ProductRecord>,
    update: (nat, Updates) -> Option<Error>,
    reread: Result<ProductRecord>)
    returns (r: Result<ProductRecord>, sent: Option<Updates>, evicted: Option<string>)
    ensures existing.Err? ==> r == Err(existing.error) && sent == None && evicted == None
    ensures existing.Ok? ==> sent.Some? && IsProductUpdate(req, sent.value)
    ensures existing.Ok? && update(id, sent.value).Some? ==>
      r == Err(update(id, sent.value).value) && evicted == None
    ensures existing.Ok? && update(id, sent.value).None? ==>
      r == reread && evicted == Some(CacheKey(id))
  {
    if existing.Err? {
      return Err(existing.error), None, None;
    }
    var updates := BuildProductUpdates(req);
    sent := Some(updates);
    var failure := update(id, updates);
    if failure.Some? {
      return Err(failure.value), sent, None;
    }
    evicted := Some(CacheKey(id));
    r := reread;
  }

  /** DeleteProduct: a repository failure is returned and the cache is left
      alone; on success the product's cache entry is evicted. */
  function DeleteProduct(id: nat, deleteFailure: Option<Error>): (r: (Option<Error>, Option<string>))
    ensures r.0 == deleteFailure
    ensures r.1.Some? <==> deleteFailure.None?
    ensures r.1.Some? ==> r.1.value == CacheKey(id)
  {
    if deleteFailure.Some? then (deleteFailure, None) else (None, Some(CacheKey(id)))
  }

  /** ListProducts: a repository failure is returned. Otherwise the response
      echoes the query's page and limit and the repository's total, and holds
      as many products as were fetched, each of them zero-valued: the
      fetched products themselves are not returned. */
  function ListProducts(query: ProductQuery, fetched: Result<(seq<ProductRecord>, int)>)
    : (r: Result<ProductListResponse>)
    ensures fetched.Err? ==> r == Err(fetched.error)
    ensures fetched.Ok? ==>
      && r.Ok?
      && |r.value.products| == |fetched.value.0|
      && (forall i | 0 <= i < |r.value.products| :: r.value.products[i] == ZeroProduct)
      && r.value.total == fetched.value.1
      && r.value.page == query.page && r.value.limit == query.limit
  {
    match fetched
    case Err(e) => Err(e)
    case Ok((products, total)) =>
      Ok(ProductListResponse(seq(|products|, _ => ZeroProduct), total, query.page, query.limit))
  }

  /** The list response does not depend on which products were fetched,
      only on how many. */
  lemma ListIgnoresFetchedContents(
    query: ProductQuery, a: seq<ProductRecord>, b: seq<ProductRecord>, total: int)
    requires |a| == |b|
    ensures ListProducts(query, Ok((a, total))) == ListProducts(query, Ok((b, total)))
  {
  }

  /** User and product cache keys never collide. */
  lemma CacheKeysDisjoint(productId: nat, userKey: string)
    requires |userKey| > 5 && userKey[..5] == "user:"
    ensures CacheKey(productId) != userKey
  {
    assert CacheKey(productId)[0] == 'p' && userKey[0] == 'u';
  }
}
