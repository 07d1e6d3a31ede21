/**
  The JSON product routes: listing with the `available` filter, lookup,
  and the administrative create / patch / delete writes to the catalog.
 */
module ProductRoutes {
  import opened Wrappers
  import opened Schema
  import Ordering

  /** The product collection by id. */
  type Catalog = map<Id, Product>

  datatype ProductError =
    | FieldsRequired
    | NegativePrice
    | NegativeStock
      /** The update failed the schema's `required` check. */
    | ValidationFailed
    | ProductNotFound

  // --------------------------------------------------------------- reading

  /** The `available` query parameter: absent means no filter, otherwise only
      the exact text `"true"` selects available products. */
  predicate MatchesAvailable(p: Product, available: Option<string>) {
    available.None? || p.isAvailable == (available.value == "true")
  }

  ghost function Listed(catalog: Catalog, available: Option<string>): set<Id> {
    set id | id in catalog && MatchesAvailable(catalog[id], available)
  }

  /** `GET /products` without a search term: every matching product exactly
      once, newest first. */
  ghost function ListProducts(catalog: Catalog, available: Option<string>): (r: seq<Id>)
    ensures forall id :: id in r <==> id in catalog && MatchesAvailable(catalog[id], available)
    ensures |r| == |Listed(catalog, available)|
    ensures forall i, j :: 0 <= i < j < |r| ==> catalog[r[i]].createdAt >= catalog[r[j]].createdAt
  {
    var found := Ordering.Enumerate(Listed(catalog, available));
    var key := (id: Id) => if id in catalog then catalog[id].createdAt else 0;
    var r := Ordering.SortDesc(found, key);
    forall id ensures id in r <==> id in found {
      assert id in r <==> id in multiset(r);
      assert id in found <==> id in multiset(found);
    }
    assert |r| == |found| by {
      assert |multiset(r)| == |multiset(found)|;
    }
    forall i, j | 0 <= i < j < |r| ensures r[i] in catalog && r[j] in catalog && key(r[i]) >= key(r[j]) {
      assert r[i] in found && r[j] in found;
    }
    r
  }

  /** `GET /products/:id`. */
  function GetProduct(catalog: Catalog, id: Id): (r: Result<Product, ProductError>)
    ensures id in catalog <==> r.Ok?
    ensures r.Ok? ==> r.value == catalog[id]
    ensures r.Err? ==> r.error == ProductNotFound
  {
    if id in catalog then Ok(catalog[id]) else Err(ProductNotFound)
  }

  // ---------------------------------------------------------------- create

  /** The create body; an empty `name` or `category` stands for a missing one. */
  datatype CreateBody = CreateBody(
    name: string, price: Option<int>, category: string,
    image: Option<string>, description: Option<string>, stock: Option<int>)

  /** JavaScript truthiness of an optional number: absent and 0 are falsy. */
  predicate TruthyNumber(n: Option<int>) {
    n.Some? && n.value != 0
  }

  /** `stock || 0`. */
  function StockOrZero(stock: Option<int>): int {
    if TruthyNumber(stock) then stock.value else 0
  }

  /** `POST /products`: name, price and category must be truthy (so a zero
      price is refused), price and stock not negative; a missing stock is 0
      and availability is `stock > 0`. */
  function CreateProduct(catalog: Catalog, id: Id, body: CreateBody, now: Millis): (r: Result<Catalog, ProductError>)
    requires id !in catalog
    ensures body.name == "" || !TruthyNumber(body.price) || body.category == "" ==> r == Err(FieldsRequired)
    ensures body.name != "" && TruthyNumber(body.price) && body.category != "" ==>
      && (body.price.value < 0 ==> r == Err(NegativePrice))
      && (body.price.value > 0 && body.stock.Some? && body.stock.value < 0 ==> r == Err(NegativeStock))
      && (body.price.value > 0 && (body.stock.None? || body.stock.value >= 0) ==> r.Ok?)
    ensures r.Ok? ==>
      && id in r.value && r.value == catalog[id := r.value[id]]
      && var p := r.value[id];
      && ProductValid(p) && AvailabilityMatchesStock(p)
      && p.name == body.name && p.price == body.price.value && p.category == body.category
      && p.image == body.image && p.description == body.description && p.createdAt == now
      && p.stock == (if body.stock.Some? then body.stock.value else 0)
  {
    if body.name == "" || !TruthyNumber(body.price) || body.category == "" then Err(FieldsRequired)
    else if body.price.value < 0 then Err(NegativePrice)
    else if body.stock.Some? && body.stock.value < 0 then Err(NegativeStock)
    else
      var stock := StockOrZero(body.stock);
      Ok(catalog[id := NewProduct(body.name, body.price.value, body.category, body.image,
                                  body.description, Some(stock), Some(stock > 0), now)])
  }

  // ----------------------------------------------------------------- patch

  /** A patch body: the fields present are written; `isAvailable` may be
      given directly but is overridden whenever `stock` is present. */
  datatype PatchBody = PatchBody(
    name: Option<string>, price: Option<int>, category: Option<string>,
    image: Option<string>, description: Option<string>, stock: Option<int>,
    isAvailable: Option<bool>)

  /** The product with the present fields of `body` written over it. */
  function ApplyPatch(p: Product, body: PatchBody): (q: Product)
    ensures body.stock.Some? ==> q.stock == body.stock.value && q.isAvailable == (q.stock > 0)
    ensures body.stock.None? ==> q.stock == p.stock && q.isAvailable == body.isAvailable.GetOr(p.isAvailable)
    ensures q.name == body.name.GetOr(p.name) && q.price == body.price.GetOr(p.price)
    ensures q.category == body.category.GetOr(p.category) && q.createdAt == p.createdAt
    ensures q.image == (if body.image.Some? then body.image else p.image)
    ensures q.description == (if body.description.Some? then body.description else p.description)
  {
    var available := if body.stock.Some? then Some(body.stock.value > 0) else body.isAvailable;
    Product(
      body.name.GetOr(p.name),
      body.price.GetOr(p.price),
      body.category.GetOr(p.category),
      if body.image.Some? then body.image else p.image,
      if body.description.Some? then body.description else p.description,
      body.stock.GetOr(p.stock),
      available.GetOr(p.isAvailable),
      p.createdAt)
  }

  /** `PATCH /products/:id`: a supplied price or stock must not be negative,
      a supplied name or category must not be empty; then the product, if it
      exists, takes the patch. No other product changes. */
  function PatchProduct(catalog: Catalog, id: Id, body: PatchBody): (r: Result<Catalog, ProductError>)
    ensures body.price.Some? && body.price.value < 0 ==> r == Err(NegativePrice)
    ensures (body.price.None? || body.price.value >= 0) && body.stock.Some? && body.stock.value < 0 ==>
      r == Err(NegativeStock)
    ensures ((body.price.None? || body.price.value >= 0) && (body.stock.None? || body.stock.value >= 0)
             && (body.name == Some("") || body.category == Some(""))) ==> r == Err(ValidationFailed)
    ensures r.Ok? ==> id in catalog && r.value == catalog[id := ApplyPatch(catalog[id], body)]
    ensures r.Err? && r.error == ProductNotFound ==> id !in catalog
    ensures ((body.price.None? || body.price.value >= 0) && (body.stock.None? || body.stock.value >= 0)
             && body.name != Some("") && body.category != Some("")) ==> (r.Ok? <==> id in catalog)
    ensures ((body.price.None? || body.price.value >= 0) && (body.stock.None? || body.stock.value >= 0)
             && body.name != Some("") && body.category != Some("") && id !in catalog) ==> r == Err(ProductNotFound)
  {
    if body.price.Some? && body.price.value < 0 then Err(NegativePrice)
    else if body.stock.Some? && body.stock.value < 0 then Err(NegativeStock)
    else if body.name == Some("") || body.category == Some("") then Err(ValidationFailed)
    else if id !in catalog then Err(ProductNotFound)
    else Ok(catalog[id := ApplyPatch(catalog[id], body)])
  }

  /** An accepted patch keeps the product within its schema. */
  lemma PatchKeepsProductValid(catalog: Catalog, id: Id, body: PatchBody)
    requires PatchProduct(catalog, id, body).Ok?
    requires ProductValid(catalog[id])
    ensures ProductValid(PatchProduct(catalog, id, body).value[id])
  {
  }

  /** A patch that supplies stock, or touches neither stock nor availability,
      leaves availability in step with stock; one that sets `isAvailable`
      alone can break the rule. */
  lemma PatchAvailability(catalog: Catalog, id: Id, body: PatchBody)
    requires PatchProduct(catalog, id, body).Ok?
    ensures var p := PatchProduct(catalog, id, body).value[id];
      && (body.stock.Some? ==> AvailabilityMatchesStock(p))
      && (body.stock.None? && body.isAvailable.None? && AvailabilityMatchesStock(catalog[id]) ==>
            AvailabilityMatchesStock(p))
  {
  }

  lemma AvailabilityFlagAloneBreaksRule()
    ensures var empty := Product("Chips", 30, "Snacks", None, None, 0, false, 0);
      var body := PatchBody(None, None, None, None, None, None, Some(true));
      var r := PatchProduct(map["chips" := empty], "chips", body);
      r.Ok? && !AvailabilityMatchesStock(r.value["chips"])
  {
  }

  // ---------------------------------------------------------------- delete

  /** `DELETE /products/:id`. */
  function DeleteProduct(catalog: Catalog, id: Id): (r: Result<Catalog, ProductError>)
    ensures id !in catalog <==> r == Err(ProductNotFound)
    ensures r.Ok? ==> (r.value.Keys == catalog.Keys - {id}
      && forall k :: k in r.value ==> r.value[k] == catalog[k])
  {
    if id !in catalog then Err(ProductNotFound) else Ok(catalog - {id})
  }
}
